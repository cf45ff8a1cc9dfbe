/** Buffer mode: decompress under a cap, filter record by record, compress as several members. */
module Buffer {
  import opened Wrappers
  import opened Engines
  import opened Tally
  import opened Codecs
  import opened Envelopes
  import opened Errors
  import opened Records

  const MIN_CHUNK_BYTES: nat := 64 * 1024
  const U64_MAX: nat := 0xFFFF_FFFF_FFFF_FFFF

  // ----- Compressing in several members -----

  /** How many members are made of `len` bytes when `chunks` are asked for. */
  function MemberCount(len: nat, chunks: nat): nat {
    var wanted := if chunks < len / MIN_CHUNK_BYTES then chunks else len / MIN_CHUNK_BYTES;
    if wanted < 1 then 1 else wanted
  }

  function DivCeil(a: nat, b: nat): nat
    requires b > 0
  {
    (a + b - 1) / b
  }

  /** Pieces of `size` bytes, the last possibly shorter; none of an empty body. */
  function Pieces(body: string, size: nat): seq<string>
    requires size > 0
  {
    if body == "" then [] else if |body| <= size then [body]
    else [body[..size]] + Pieces(body[size..], size)
  }

  lemma {:induction false} PiecesShape(body: string, size: nat, k: nat)
    requires size > 0 && k >= 1 && (k - 1) * size < |body| <= k * size
    ensures |Pieces(body, size)| == k && Concat(Pieces(body, size)) == body
    ensures forall i :: 0 <= i < k - 1 ==> |Pieces(body, size)[i]| == size
    ensures |Pieces(body, size)[k - 1]| == |body| - (k - 1) * size
  {
    if k == 1 {
      assert Concat([body]) == body;
    } else {
      assert (k - 1) * size == (k - 2) * size + size && (k - 2) * size >= 0;
      PiecesShape(body[size..], size, k - 1);
      var pieces := Pieces(body, size);
      assert pieces[1..] == Pieces(body[size..], size);
      assert body == body[..size] + body[size..];
    }
  }

  lemma DivCeilBounds(a: nat, b: nat)
    requires b > 0
    ensures a <= DivCeil(a, b) * b <= a + b - 1
  {
    var q := (a + b - 1) / b;
    assert a + b - 1 == q * b + (a + b - 1) % b;
  }

  lemma SizeAtLeast(len: nat, k: nat, size: nat)
    requires k * MIN_CHUNK_BYTES <= len <= size * k && k > 0
    ensures size >= MIN_CHUNK_BYTES
  {
    assert (size - MIN_CHUNK_BYTES) * k == size * k - MIN_CHUNK_BYTES * k >= 0;
  }

  /** The texts a body is compressed in, one to a member: the whole body, or even pieces of it. */
  function MemberTexts(body: string, chunks: nat): seq<string> {
    var k := MemberCount(|body|, chunks);
    if k == 1 then [body] else Pieces(body, DivCeil(|body|, k))
  }

  /** The same by the functions that cut the text up. */
  lemma MembersMeasured(body: string, chunks: nat)
    ensures var k := MemberCount(|body|, chunks);
            var texts := MemberTexts(body, chunks);
            && 1 <= |texts| <= k && Concat(texts) == body
            && (forall i :: 0 <= i < |texts| - 1 ==> |texts[i]| == DivCeil(|body|, k))
            && (k > 1 ==> DivCeil(|body|, k) >= MIN_CHUNK_BYTES && 0 < |texts[|texts| - 1]| <= DivCeil(|body|, k))
            && (k <= MIN_CHUNK_BYTES ==> |texts| == k && (k > 1 ==> |texts[k - 1]| > MIN_CHUNK_BYTES - k))
  {
    var len, k := |body|, MemberCount(|body|, chunks);
    if k == 1 {
      assert Concat([body]) == body;
    } else {
      var size := DivCeil(len, k);
      DivCeilBounds(len, k);
      assert size * k == k * size;
      assert (k - 1) * size == size * k - size;
      assert k * MIN_CHUNK_BYTES <= len by {
        assert k <= len / MIN_CHUNK_BYTES;
      }
      SizeAtLeast(len, k, size);
      if k <= MIN_CHUNK_BYTES {
        PiecesShape(body, size, k);
      } else {
        FewerPieces(body, size, k);
      }
    }
  }

  /**
   For any body and any number of chunks: the members hold the body, in order; no more than asked
   for and one for each 64 KiB; all but the last of the same length, at least 64 KiB if there are
   several. Up to 65536 of them they are exactly as many as asked for, and the last falls short
   of 64 KiB by fewer bytes than there are members.
   */
  lemma MembersAreEven(body: string, chunks: nat)
    ensures var wanted := if chunks < |body| / 65536 then chunks else |body| / 65536;
            var k := if wanted < 1 then 1 else wanted;
            var size := (|body| + k - 1) / k;
            var texts := MemberTexts(body, chunks);
            && 1 <= |texts| <= k && Concat(texts) == body
            && (forall i :: 0 <= i < |texts| - 1 ==> |texts[i]| == size)
            && (k > 1 ==> size >= 65536 && 0 < |texts[|texts| - 1]| <= size)
            && (k <= 65536 ==> |texts| == k && (k > 1 ==> |texts[k - 1]| > 65536 - k))
  {
    hide MemberTexts, Concat;
    MembersMeasured(body, chunks);
  }

  lemma QuotientAtMost(n: nat, k: nat, size: nat, len: nat)
    requires 0 < len <= n * size <= len + size - 1 && len <= size * k
    ensures 1 <= n <= k && (n - 1) * size < len
  {
    assert (n - 1) * size == n * size - size && size * k == k * size;
    if k < n {
      TimesMonotone(k, n - 1, size);
    }
  }

  lemma TimesMonotone(a: nat, b: nat, c: nat)
    requires a <= b
    ensures a * c <= b * c
  {
    assert (b - a) * c == b * c - a * c;
  }

  lemma FewerPieces(body: string, size: nat, k: nat)
    requires size > 0 && body != "" && |body| <= size * k
    ensures var pieces := Pieces(body, size);
            && 1 <= |pieces| <= k && Concat(pieces) == body
            && (forall i :: 0 <= i < |pieces| - 1 ==> |pieces[i]| == size) && 0 < |pieces[|pieces| - 1]| <= size
  {
    var n := DivCeil(|body|, size);
    DivCeilBounds(|body|, size);
    QuotientAtMost(n, k, size, |body|);
    PiecesShape(body, size, n);
  }

  /** One member; the encoder may fail. */
  method GzipCompress(codec: Codec, body: string, encodes: bool) returns (r: Result<Bytes, CoreError>)
    ensures r == if encodes then Ok(codec.Gzip(body)) else Err(Internal)
  {
    r := if encodes then Ok(codec.Gzip(body)) else Err(Internal);
  }

  /** Compresses each piece by itself; the first failure is the result. */
  method CompressPieces(codec: Codec, parts: seq<string>, encodes: nat -> bool) returns (r: Result<Bytes, CoreError>)
    ensures r == if forall i: nat :: i < |parts| ==> encodes(i) then Ok(Concat(codec.Members(parts))) else Err(Internal)
  {
    var members: seq<Result<Bytes, CoreError>> := [];
    for i := 0 to |parts|
      invariant |members| == i
      invariant forall j :: 0 <= j < i ==> members[j] == if encodes(j) then Ok(codec.Gzip(parts[j])) else Err(Internal)
    {
      var member := GzipCompress(codec, parts[i], encodes(i));
      members := members + [member];
    }
    var out: Bytes := [];
    for i := 0 to |members|
      invariant out == Concat(codec.Members(parts[..i]))
      invariant forall j: nat :: j < i ==> encodes(j)
    {
      if members[i].Err? {
        return Err(Internal);
      }
      assert parts[..i + 1] == parts[..i] + [parts[i]];
      assert codec.Members(parts[..i + 1]) == codec.Members(parts[..i]) + [codec.Gzip(parts[i])];
      ConcatAppend(codec.Members(parts[..i]), codec.Gzip(parts[i]));
      out := out + members[i].value;
    }
    assert parts[..|parts|] == parts;
    r := Ok(out);
  }

  /** `encodes(i)` is whether the worker of piece `i` succeeds: an encoder error and a panic look alike. */
  method GzipCompressChunked(
      codec: Codec, body: string, chunks: nat, encodes: nat -> bool) returns (r: Result<Bytes, CoreError>)
    ensures r == if forall i: nat :: i < |MemberTexts(body, chunks)| ==> encodes(i) then
                   Ok(Concat(codec.Members(MemberTexts(body, chunks))))
                 else Err(Internal)
  {
    if MemberCount(|body|, chunks) == 1 {
      assert MemberTexts(body, chunks) == [body] by {
        hide MemberCount;
      }
      assert codec.Members([body]) == [codec.Gzip(body)];
      assert Concat([codec.Gzip(body)]) == codec.Gzip(body);
      r := GzipCompress(codec, body, encodes(0));
    } else {
      r := CompressPieces(codec, MemberTexts(body, chunks), encodes);
    }
  }

  /** Whatever the number of members, what was compressed is what decompresses. */
  lemma ChunkedInflates(codec: Codec, body: string, chunks: nat)
    requires codec.Inflates()
    ensures codec.gunzip(Concat(codec.Members(MemberTexts(body, chunks)))) == Inflation(body, false)
  {
    hide MemberCount, Pieces, MemberTexts;
    MembersAreEven(body, chunks);
  }

  // ----- Decompressing under a cap -----

  /**
   Reads at most one byte past the cap; a corrupt member beyond that is never seen. The limit
   saturates, so that a cap of `U64_MAX` is no cap.
   */
  method DecompressCapped(inflation: Inflation, max: nat) returns (r: Result<string, CoreError>)
    requires max <= U64_MAX && |inflation.text| < U64_MAX
    ensures r == if |inflation.text| > max then Err(ObjectTooLarge) else if inflation.corrupt then Err(Gzip) else Ok(inflation.text)
  {
    var limit := if max == U64_MAX then U64_MAX else max + 1;
    var buf := if |inflation.text| < limit then inflation.text else inflation.text[..limit];
    if |inflation.text| < limit && inflation.corrupt {
      return Err(Gzip);
    }
    if |buf| > max {
      return Err(ObjectTooLarge);
    }
    r := Ok(buf);
  }

  // ----- One object -----

  /** What one run is given besides the object: the libraries, the compiled rules, the settings. */
  datatype Job = Job(
    codec: Codec, parse: string -> Document, evaluate: string -> Option<Decision>, maxObjectBytes: nat, gzipChunks: nat)
  {
    ghost predicate Valid() {
      codec.Inflates() && maxObjectBytes <= U64_MAX && 1 <= gzipChunks <= 16
    }
  }

  /** A buffered object carries the bytes to put; a streamed one is already written. */
  datatype Outcome = Written(body: Option<Bytes>) | NothingKept | Unrecognized

  ghost predicate AllEncode(job: Job, kept: seq<string>, encodes: nat -> bool) {
    forall i: nat :: i < |MemberTexts(Envelope(kept), job.gzipChunks)| ==> encodes(i)
  }

  /** The result of an object whose text has been read. */
  ghost function Processed(job: Job, plan: Plan, encodes: nat -> bool): Result<Outcome, CoreError> {
    var kept := Kept(plan.records, job.evaluate);
    match plan.verdict
    case Malformed => Err(Json)
    case Unrecognized => Ok(Outcome.Unrecognized)
    case Found =>
      if kept == [] then Ok(NothingKept)
      else if AllEncode(job, kept, encodes) then
        Ok(Written(Some(Concat(job.codec.Members(MemberTexts(Envelope(kept), job.gzipChunks))))))
      else Err(Internal)
  }

  ghost function BufferResult(job: Job, input: Bytes, encodes: nat -> bool): Result<Outcome, CoreError> {
    var inflation := job.codec.gunzip(input);
    if |inflation.text| > job.maxObjectBytes then Err(ObjectTooLarge)
    else if inflation.corrupt then Err(Gzip)
    else Processed(job, BufferPlan(job.parse(inflation.text)), encodes)
  }

  /** The counters that come back with a result: those of the records evaluated. */
  ghost function BufferCounts(job: Job, input: Bytes): Counts {
    CountAll(Verdicts(BufferPlan(job.parse(job.codec.gunzip(input).text)).records, job.evaluate))
  }

  /** Evaluates every record in turn, and collects the survivors. */
  method Evaluate(job: Job, records: seq<string>, tally: RecordTally) returns (survivors: seq<string>)
    requires tally.View() == ZERO
    modifies tally
    ensures survivors == Kept(records, job.evaluate)
    ensures tally.View() == CountAll(Verdicts(records, job.evaluate))
  {
    hide Count, Survives, CountAll, Verdicts, Kept;
    survivors := [];
    NothingYet(job.evaluate);
    for i := 0 to |records|
      invariant survivors == Kept(records[..i], job.evaluate)
      invariant tally.View() == CountAll(Verdicts(records[..i], job.evaluate))
    {
      KeptSnoc(records[..i], job.evaluate, records[i]);
      assert records[..i + 1] == records[..i] + [records[i]];
      var keep := tally.Record(job.evaluate(records[i]));
      if keep {
        survivors := survivors + [records[i]];
      } else {
        assert survivors + [] == survivors;
      }
    }
    assert records[..|records|] == records;
  }

  /** Writes the survivors out verbatim, with commas between them. */
  method Assemble(survivors: seq<string>) returns (body: string)
    ensures body == Envelope(survivors)
  {
    hide Join;
    body := OPEN;
    ghost var written: seq<string> := [];
    NothingYet((_: string) => None);
    for i := 0 to |survivors|
      invariant written == survivors[..i] && body == OPEN + Join(written, ",")
    {
      JoinSnoc(written, ",", survivors[i]);
      if i > 0 {
        body := body + ",";
      }
      body := body + survivors[i];
      written := written + [survivors[i]];
      assert body == OPEN + Join(written, ",");
    }
    assert written == survivors;
    body := body + CLOSE;
  }

  method BufferRun(
      job: Job, input: Bytes, encodes: nat -> bool) returns (r: Result<Outcome, CoreError>, tally: RecordTally)
    requires job.Valid() && |job.codec.gunzip(input).text| < U64_MAX
    ensures r == BufferResult(job, input, encodes)
    ensures fresh(tally) && (r.Ok? ==> tally.View() == BufferCounts(job, input))
  {
    hide Kept, CountAll, Verdicts, Join, Pieces, Concat;
    NothingYet(job.evaluate);
    tally := new RecordTally();
    var decompressed := DecompressCapped(job.codec.gunzip(input), job.maxObjectBytes);
    if decompressed.Err? {
      return Err(decompressed.error), tally;
    }
    var plan := BufferPlan(job.parse(decompressed.value));
    if plan.verdict == Malformed {
      return Err(Json), tally;
    } else if plan.verdict == Verdict.Unrecognized {
      return Ok(Outcome.Unrecognized), tally;
    }
    var survivors := Evaluate(job, plan.records, tally);
    if survivors == [] {
      return Ok(NothingKept), tally;
    }
    var body := Assemble(survivors);
    EnvelopeIsText(survivors);
    var gzipped := GzipCompressChunked(job.codec, body, job.gzipChunks, encodes);
    r := if gzipped.Ok? then Ok(Written(Some(gzipped.value))) else Err(gzipped.error);
  }

  /** What is written decompresses to the envelope of the kept records, and its counters balance. */
  lemma WrittenIsEnvelope(job: Job, input: Bytes, encodes: nat -> bool)
    requires job.Valid()
    ensures Balanced(BufferCounts(job, input))
    ensures var r := BufferResult(job, input, encodes);
            var plan := BufferPlan(job.parse(job.codec.gunzip(input).text));
            r.Ok? && r.value.Written? ==>
              && r.value.body.Some?
              && job.codec.gunzip(r.value.body.value) == Inflation(Envelope(Kept(plan.records, job.evaluate)), false)
              && BufferCounts(job, input).kept == |Kept(plan.records, job.evaluate)| > 0
  {
    hide Kept, CountAll, Verdicts, Join, Pieces, Concat;
    var plan := BufferPlan(job.parse(job.codec.gunzip(input).text));
    CountsBalance(Verdicts(plan.records, job.evaluate));
    KeptCount(plan.records, job.evaluate);
    if BufferResult(job, input, encodes).Ok? && BufferResult(job, input, encodes).value.Written? {
      EnvelopeIsText(Kept(plan.records, job.evaluate));
      ChunkedInflates(job.codec, Envelope(Kept(plan.records, job.evaluate)), job.gzipChunks);
    }
  }
}
