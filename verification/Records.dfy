/** What a run of records amounts to, in either mode: the survivors, the tally, the envelope written. */
module Records {
  import opened Wrappers
  import opened Engines
  import opened Tally

  const OPEN: string := "{\"Records\":["
  const CLOSE: string := "]}"

  function Verdicts(texts: seq<string>, evaluate: string -> Option<Decision>): (v: seq<Option<Decision>>)
    ensures |v| == |texts|
  {
    seq(|texts|, i requires 0 <= i < |texts| => evaluate(texts[i]))
  }

  /** The records that survive, in order: those kept, and those whose verdict is a parse failure. */
  function Kept(texts: seq<string>, evaluate: string -> Option<Decision>): seq<string> {
    if texts == [] then []
    else
      var last := texts[|texts| - 1];
      Kept(texts[..|texts| - 1], evaluate) + if Survives(evaluate(last)) then [last] else []
  }

  function Body(kept: seq<string>): string {
    OPEN + Join(kept, ",")
  }

  /** The envelope of the kept records: what a destination object decompresses to. */
  function Envelope(kept: seq<string>): string {
    Body(kept) + CLOSE
  }

  lemma {:induction false} JoinSnoc<T>(pieces: seq<seq<T>>, sep: seq<T>, piece: seq<T>)
    ensures Join(pieces + [piece], sep) == if pieces == [] then piece else Join(pieces, sep) + sep + piece
  {
    if |pieces| > 1 {
      JoinSnoc(pieces[1..], sep, piece);
      assert (pieces + [piece])[1..] == pieces[1..] + [piece];
    } else if |pieces| == 1 {
      assert (pieces + [piece])[1..] == [piece];
    }
  }

  lemma KeptSnoc(texts: seq<string>, evaluate: string -> Option<Decision>, text: string)
    ensures Kept(texts + [text], evaluate) == Kept(texts, evaluate) + if Survives(evaluate(text)) then [text] else []
    ensures CountAll(Verdicts(texts + [text], evaluate)) == Count(CountAll(Verdicts(texts, evaluate)), evaluate(text))
  {
    hide Count, Survives;
    assert (texts + [text])[..|texts|] == texts;
    assert Verdicts(texts + [text], evaluate) == Verdicts(texts, evaluate) + [evaluate(text)];
    assert Verdicts(texts + [text], evaluate)[..|texts|] == Verdicts(texts, evaluate);
  }

  lemma {:induction false} KeptCount(texts: seq<string>, evaluate: string -> Option<Decision>)
    ensures CountAll(Verdicts(texts, evaluate)).kept == |Kept(texts, evaluate)|
  {
    if texts != [] {
      var n := |texts| - 1;
      KeptCount(texts[..n], evaluate);
      assert texts == texts[..n] + [texts[n]];
      KeptSnoc(texts[..n], evaluate, texts[n]);
    }
  }

  lemma NothingYet(evaluate: string -> Option<Decision>)
    ensures Join<char>([], ",") == "" && CountAll(Verdicts([], evaluate)) == ZERO && Kept([], evaluate) == []
  {
  }

  lemma EnvelopeIsText(kept: seq<string>)
    ensures Envelope(kept) != ""
  {
    assert |OPEN| > 0;
  }
}
