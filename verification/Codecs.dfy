/** Compression by its contract: what the encoder may have let out so far, and what it ends with. */
module Codecs {
  newtype byte = b: int | 0 <= b < 256

  type Bytes = seq<byte>

  /** What decompressing yields before it ends: all of the text, or what came before a corrupt member. */
  datatype Inflation = Inflation(text: string, corrupt: bool)

  /**
   A gzip library. After the text `x` has been written, `partial(x)` is what the encoder can
   have let out, and `tail(x)` is what finishing adds; both depend on the text alone.
   */
  datatype Codec = Codec(partial: string -> Bytes, tail: string -> Bytes, gunzip: Bytes -> Inflation) {
    /** One member holding the whole text. */
    function Gzip(text: string): Bytes {
      partial(text) + tail(text)
    }

    /** Output already let out is never taken back. */
    ghost predicate Streams() {
      forall x: string, y: string :: partial(x) <= partial(x + y)
    }

    function Members(texts: seq<string>): (members: seq<Bytes>)
      ensures |members| == |texts|
    {
      seq(|texts|, i requires 0 <= i < |texts| => Gzip(texts[i]))
    }

    /** Section 2.2 of RFC 1952: members follow each other, and decompress to what they hold, in order. */
    ghost predicate Inflates() {
      forall texts: seq<string> :: texts != [] ==> gunzip(Concat(Members(texts))) == Inflation(Concat(texts), false)
    }

    lemma InflatesOne(text: string)
      requires Inflates()
      ensures gunzip(Gzip(text)) == Inflation(text, false)
    {
      assert Members([text]) == [Gzip(text)];
      assert Concat([Gzip(text)]) == Gzip(text);
      assert Concat([text]) == text;
    }
  }

  function Concat<T>(parts: seq<seq<T>>): seq<T> {
    if parts == [] then [] else parts[0] + Concat(parts[1..])
  }

  lemma {:induction false} ConcatAppend<T>(parts: seq<seq<T>>, part: seq<T>)
    ensures Concat(parts + [part]) == Concat(parts) + part
  {
    if parts == [] {
      assert ([part])[1..] == [];
    } else {
      assert (parts + [part])[1..] == parts[1..] + [part];
      ConcatAppend(parts[1..], part);
    }
  }
}
