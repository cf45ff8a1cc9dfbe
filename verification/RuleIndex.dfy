/**
 The two-dimensional rule index: which rules a record's `eventSource` and `eventName`
 leave as candidates.
 */
module RuleIndex {
  import opened Wrappers
  import opened Words

  // ----- Bit sets -----

  /** A fixed-size set of rule indices, 64 to a word. */
  class Bits {
    var words: seq<bv64>

    predicate Contains(idx: nat)
      reads this
    {
      idx / 64 < |words| && BitOf(words[idx / 64], idx % 64)
    }

    constructor (len: nat)
      ensures |words| == (len + 63) / 64
      ensures forall i: nat :: !Contains(i)
    {
      words := seq((len + 63) / 64, _ => 0);
      new;
      forall i: nat ensures !Contains(i) {
        if i / 64 < |words| {
          assert words[i / 64] == 0;
        }
      }
    }

    method Set(idx: nat)
      requires idx / 64 < |words|
      modifies this
      ensures |words| == old(|words|)
      ensures forall i: nat :: Contains(i) <==> i == idx || old(Contains(i))
    {
      hide BitOf, Union, Mask, ShiftCount;
      var was := words;
      words := words[idx / 64 := Union(words[idx / 64], Mask(ShiftCount(idx % 64)))];
      forall i: nat ensures Contains(i) <==> i == idx || old(Contains(i)) {
        if i / 64 == idx / 64 {
          SetBit(was[idx / 64], idx % 64, i % 64);
        }
      }
    }

    method UnionFrom(other: Bits)
      requires |words| == |other.words| && other != this
      modifies this
      ensures |words| == old(|words|)
      ensures forall i: nat :: Contains(i) <==> old(Contains(i)) || other.Contains(i)
    {
      hide Union, BitOf;
      var was := words;
      for n := 0 to |words|
        invariant |words| == |was| == |other.words| && other.words == old(other.words)
        invariant forall k :: 0 <= k < n ==> words[k] == Union(was[k], other.words[k])
        invariant forall k :: n <= k < |words| ==> words[k] == was[k]
      {
        words := words[n := Union(words[n], other.words[n])];
      }
      forall i: nat ensures Contains(i) <==> old(Contains(i)) || other.Contains(i) {
        if i / 64 < |words| {
          UnionBit(was[i / 64], other.words[i / 64], i % 64);
        }
      }
    }
  }

  method AllSet(len: nat) returns (bits: Bits)
    ensures fresh(bits) && |bits.words| == (len + 63) / 64
    ensures forall i: nat :: bits.Contains(i) <==> i < len
  {
    bits := new Bits(len);
    for idx := 0 to len
      invariant |bits.words| == (len + 63) / 64
      invariant forall i: nat :: bits.Contains(i) <==> i < idx
    {
      bits.Set(idx);
    }
  }

  // ----- One axis -----

  /** The literals one condition restricts a field to; `None` when it restricts nothing. */
  type AxisKeys = seq<Option<seq<string>>>

  /** Rule `i` restricts the field to a list holding `lit`. */
  ghost predicate Lists(keys: AxisKeys, i: nat, lit: string) {
    i < |keys| && keys[i].Some? && lit in keys[i].value
  }

  /** Rule `i` leaves the field open. */
  ghost predicate Open(keys: AxisKeys, i: nat) {
    i < |keys| && keys[i].None?
  }

  lemma KeysGrow(keys: AxisKeys, done: seq<string>, lit: string)
    ensures forall i: nat, l :: Lists(keys + [Some(done + [lit])], i, l) <==>
              Lists(keys + [Some(done)], i, l) || (i == |keys| && l == lit)
    ensures forall i: nat, l :: Lists(keys + [Some([])], i, l) <==> Lists(keys, i, l)
    ensures forall i: nat, l :: Lists(keys + [None], i, l) <==> Lists(keys, i, l)
    ensures forall i: nat :: Open(keys + [Some(done)], i) <==> Open(keys, i)
    ensures forall i: nat :: Open(keys + [None], i) <==> Open(keys, i) || i == |keys|
  {
  }

  /** Buckets of rules by literal, and the rules no literal constrains. */
  class Axis {
    var buckets: map<string, Bits>
    var unconstrained: Bits

    ghost predicate Apart(wordCount: nat)
      reads this, buckets.Values, unconstrained
    {
      (forall l :: l in buckets ==> buckets[l] != unconstrained && |buckets[l].words| == wordCount) &&
      (forall l, l' :: l in buckets && l' in buckets && l != l' ==> buckets[l] != buckets[l']) &&
      |unconstrained.words| == wordCount
    }

    /** The buckets before the unconstrained rules are folded in. */
    ghost predicate Collects(keys: AxisKeys)
      reads this, buckets.Values, unconstrained
    {
      (forall i: nat :: unconstrained.Contains(i) <==> Open(keys, i)) &&
      (forall l, i: nat :: l in buckets ==> (buckets[l].Contains(i) <==> Lists(keys, i, l))) &&
      (forall l, i: nat :: Lists(keys, i, l) ==> l in buckets)
    }

    /** Every bucket is a complete answer, and so is a miss. */
    ghost predicate Answers(keys: AxisKeys)
      reads this, buckets.Values, unconstrained
    {
      forall value, i: nat :: BitsFor(value).Contains(i) <==> Open(keys, i) || Lists(keys, i, value)
    }

    function BitsFor(value: string): Bits
      reads this
    {
      if value in buckets then buckets[value] else unconstrained
    }

    constructor (len: nat)
      ensures fresh(unconstrained) && buckets == map[]
      ensures Apart((len + 63) / 64) && Collects([])
    {
      buckets := map[];
      unconstrained := new Bits(len);
    }

    method AddLiteral(len: nat, idx: nat, lit: string, ghost keys: AxisKeys, ghost done: seq<string>)
      requires idx == |keys| < len && Apart((len + 63) / 64) && Collects(keys + [Some(done)])
      modifies this`buckets, buckets.Values
      ensures forall l :: l in buckets ==> (l in old(buckets) && buckets[l] == old(buckets)[l]) || fresh(buckets[l])
      ensures Apart((len + 63) / 64) && Collects(keys + [Some(done + [lit])])
    {
      hide Bits.Contains;
      KeysGrow(keys, done, lit);
      KeysGrow(keys, done + [lit], lit);
      hide Lists, Open;
      if lit !in buckets {
        var bits := new Bits(len);
        buckets := buckets[lit := bits];
      }
      buckets[lit].Set(idx);
    }

    method Add(len: nat, idx: nat, key: Option<seq<string>>, ghost keys: AxisKeys)
      requires idx == |keys| < len && Apart((len + 63) / 64) && Collects(keys)
      modifies this`buckets, buckets.Values, unconstrained
      ensures forall l :: l in buckets ==> (l in old(buckets) && buckets[l] == old(buckets)[l]) || fresh(buckets[l])
      ensures Apart((len + 63) / 64) && Collects(keys + [key])
    {
      KeysGrow(keys, [], "");
      hide Bits.Contains, Lists, Open;
      match key
      case None =>
        unconstrained.Set(idx);
      case Some(literals) =>
        assert literals[..0] == [];
        assert Collects(keys + [Some([])]);
        for n := 0 to |literals|
          invariant forall l :: l in buckets ==> (l in old(buckets) && buckets[l] == old(buckets)[l]) || fresh(buckets[l])
          invariant Apart((len + 63) / 64) && Collects(keys + [Some(literals[..n])])
        {
          AddLiteral(len, idx, literals[n], keys, literals[..n]);
          assert literals[..n+1] == literals[..n] + [literals[n]];
        }
        assert literals[..|literals|] == literals;
    }

    /** Second pass: a bucket hit must already hold the rules no literal constrains. */
    method FoldUnconstrained(wordCount: nat, ghost keys: AxisKeys)
      requires Apart(wordCount) && Collects(keys)
      modifies buckets.Values
      ensures Apart(wordCount) && Answers(keys)
    {
      hide Bits.Contains, Lists, Open;
      var todo := buckets.Keys;
      while todo != {}
        invariant todo <= buckets.Keys
        invariant Apart(wordCount)
        invariant forall i: nat :: unconstrained.Contains(i) <==> Open(keys, i)
        invariant forall l, i: nat :: l in buckets ==>
                    (buckets[l].Contains(i) <==> Lists(keys, i, l) || (l !in todo && Open(keys, i)))
      {
        var lit :| lit in todo;
        buckets[lit].UnionFrom(unconstrained);
        todo := todo - {lit};
      }
    }
  }

  method BuildAxis(keys: AxisKeys) returns (axis: Axis)
    ensures fresh(axis) && fresh(axis.unconstrained) && fresh(axis.buckets.Values)
    ensures axis.Answers(keys)
  {
    hide Axis.Apart, Axis.Collects, Axis.Answers;
    axis := new Axis(|keys|);
    assert keys[..0] == [];
    for idx := 0 to |keys|
      invariant fresh(axis.unconstrained) && fresh(axis.buckets.Values)
      invariant axis.Apart((|keys| + 63) / 64) && axis.Collects(keys[..idx])
    {
      axis.Add(|keys|, idx, keys[idx], keys[..idx]);
      assert keys[..idx+1] == keys[..idx] + [keys[idx]];
    }
    assert keys[..|keys|] == keys;
    axis.FoldUnconstrained((|keys| + 63) / 64, keys);
  }

  // ----- The index -----

  datatype RuleKeys = RuleKeys(eventSource: Option<seq<string>>, eventName: Option<seq<string>>)

  function SourceKeys(keys: seq<RuleKeys>): (axis: AxisKeys)
    ensures |axis| == |keys|
  {
    seq(|keys|, i requires 0 <= i < |keys| => keys[i].eventSource)
  }

  function NameKeys(keys: seq<RuleKeys>): (axis: AxisKeys)
    ensures |axis| == |keys|
  {
    seq(|keys|, i requires 0 <= i < |keys| => keys[i].eventName)
  }

  /** An absent value constrains nothing; an unreduced rule is a candidate for every value. */
  ghost predicate Admits(key: Option<seq<string>>, value: Option<string>) {
    value.None? || key.None? || value.value in key.value
  }

  /** An axis answers an absent value with every rule, and a value with those that admit it. */
  lemma AxisAdmits(axis: Axis, all: Bits, keys: AxisKeys, value: Option<string>, i: nat)
    requires axis.Answers(keys) && forall j: nat :: all.Contains(j) <==> j < |keys|
    ensures (match value case None => all case Some(v) => axis.BitsFor(v)).Contains(i) <==> i < |keys| && Admits(keys[i], value)
  {
    hide Bits.Contains;
    if value.Some? {
      assert axis.BitsFor(value.value).Contains(i) <==> Open(keys, i) || Lists(keys, i, value.value);
    }
  }

  class Index {
    const source: Axis
    const name: Axis
    const all: Bits
    const always: seq<nat>
    const ruleCount: nat

    ghost function Frame(): set<object>
      reads source, name
    {
      {source, name, all, source.unconstrained, name.unconstrained} + source.buckets.Values + name.buckets.Values
    }

    function SourceBits(eventSource: Option<string>): Bits
      reads source
    {
      match eventSource case None => all case Some(value) => source.BitsFor(value)
    }

    function NameBits(eventName: Option<string>): Bits
      reads name
    {
      match eventName case None => all case Some(value) => name.BitsFor(value)
    }

    predicate Permits(idx: nat, eventSource: Option<string>, eventName: Option<string>)
      reads Frame()
    {
      SourceBits(eventSource).Contains(idx) && NameBits(eventName).Contains(idx)
    }

    /** The word bitsets answer exactly what the keys say. */
    ghost predicate Exact(keys: seq<RuleKeys>)
      reads Frame()
    {
      ruleCount == |keys| &&
      (forall i: nat, es, en :: Permits(i, es, en) <==>
         i < |keys| && Admits(keys[i].eventSource, es) && Admits(keys[i].eventName, en)) &&
      (forall i: nat :: i in always <==> i < |keys| && keys[i].eventSource.None? && keys[i].eventName.None?)
    }

    constructor (keys: seq<RuleKeys>)
      ensures Exact(keys) && fresh(Frame())
    {
      var sourceAxis := BuildAxis(SourceKeys(keys));
      var nameAxis := BuildAxis(NameKeys(keys));
      var every := AllSet(|keys|);
      var unreduced: seq<nat> := [];
      for i := 0 to |keys|
        invariant forall k: nat :: k in unreduced <==> k < i && keys[k].eventSource.None? && keys[k].eventName.None?
      {
        if keys[i].eventSource.None? && keys[i].eventName.None? {
          unreduced := unreduced + [i];
        }
      }
      source, name, all, always, ruleCount := sourceAxis, nameAxis, every, unreduced, |keys|;
      new;
      hide Bits.Contains, Axis.Answers, Admits, Exact;
      IsExact(keys);
    }

    lemma IsExact(keys: seq<RuleKeys>)
      requires source.Answers(SourceKeys(keys)) && name.Answers(NameKeys(keys))
      requires forall j: nat :: all.Contains(j) <==> j < |keys|
      requires ruleCount == |keys|
      requires forall i: nat :: i in always <==> i < |keys| && keys[i].eventSource.None? && keys[i].eventName.None?
      ensures Exact(keys)
    {
      hide Bits.Contains, Axis.Answers, Admits;
      forall i: nat, es, en ensures Permits(i, es, en) <==>
               i < |keys| && Admits(keys[i].eventSource, es) && Admits(keys[i].eventName, en) {
        AxisAdmits(source, all, SourceKeys(keys), es, i);
        AxisAdmits(name, all, NameKeys(keys), en, i);
      }
    }
  }
}
