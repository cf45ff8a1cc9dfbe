/**
 JSON as a streaming deserializer meets it, and as a fully parsed value.

 A `Doc` keeps object members in order, duplicates included, and may hold a token that
 does not decode: a string with a lone surrogate escape, a number out of range. A `Value`
 is what a full parse makes of it, where the last of several equal keys wins.
 */
module Json {
  import opened Wrappers

  datatype Key = Decoded(name: string) | BadKey

  datatype Member = Member(key: Key, value: Doc)

  datatype Doc =
    | Null
    | Bool(b: bool)
    | Number(text: string)
    | Str(s: string)
    | Undecodable
    | Array(items: seq<Doc>)
    | Object(members: seq<Member>)

  /** A text is one value, followed by nothing but whitespace unless `trailing`. */
  datatype Text = Text(root: Doc, trailing: bool)

  datatype Value =
    | VNull
    | VBool(b: bool)
    | VNumber(text: string)
    | VString(s: string)
    | VArray(items: seq<Value>)
    | VObject(fields: map<string, Value>)

  predicate Decodes(d: Doc) {
    match d
    case Undecodable => false
    case Array(items) => forall i :: 0 <= i < |items| ==> Decodes(items[i])
    case Object(members) => MembersDecode(members)
    case _ => true
  }

  predicate MembersDecode(members: seq<Member>) {
    forall i :: 0 <= i < |members| ==> MemberDecodes(members[i])
  }

  predicate MemberDecodes(m: Member) {
    m.key.Decoded? && Decodes(m.value)
  }

  function Collapse(d: Doc): Value
    requires Decodes(d)
  {
    match d
    case Null => VNull
    case Bool(b) => VBool(b)
    case Number(text) => VNumber(text)
    case Str(s) => VString(s)
    case Array(items) => VArray(seq(|items|, i requires 0 <= i < |items| => Collapse(items[i])))
    case Object(members) => VObject(CollapseMembers(members))
  }

  /** Last-wins: a later member overwrites an earlier one of the same name. */
  function CollapseMembers(members: seq<Member>): (fields: map<string, Value>)
    requires MembersDecode(members)
  {
    if members == [] then map[]
    else
      var last := members[|members| - 1];
      assert MemberDecodes(last);
      CollapseMembers(members[..|members| - 1])[last.key.name := MemberValue(last)]
  }

  /** A field of a parsed object is the last member of its name. */
  lemma {:induction false} LastMemberWins(members: seq<Member>, i: nat)
    requires MembersDecode(members) && i < |members|
    requires forall j :: i < j < |members| ==> members[j].key != members[i].key
    ensures MemberDecodes(members[i])
    ensures var fields, name := CollapseMembers(members), members[i].key.name;
            name in fields && fields[name] == Collapse(members[i].value)
  {
    hide Collapse, Decodes;
    var n := |members| - 1;
    assert MemberDecodes(members[i]) && MemberDecodes(members[n]);
    if i < n {
      LastMemberWins(members[..n], i);
    }
  }

  /** And there are no other fields. */
  lemma {:induction false} FieldsAreMembers(members: seq<Member>, name: string)
    requires MembersDecode(members) && name in CollapseMembers(members)
    ensures exists i :: 0 <= i < |members| && members[i].key == Decoded(name)
  {
    hide Collapse, Decodes;
    var n := |members| - 1;
    assert MemberDecodes(members[n]);
    if members[n].key != Decoded(name) {
      FieldsAreMembers(members[..n], name);
      var i :| 0 <= i < n && members[..n][i].key == Decoded(name);
      assert members[i].key == Decoded(name);
    }
  }

  function MemberValue(m: Member): Value
    requires MemberDecodes(m)
  {
    Collapse(m.value)
  }

  /** The full parse of a text: the reference every other reader is compared with. */
  function Parse(text: Text): Option<Value> {
    if Decodes(text.root) && !text.trailing then Some(Collapse(text.root)) else None
  }

  /** The text form a scalar is compared in; nothing for null, arrays and objects. */
  function ScalarText(v: Value): Option<string> {
    match v
    case VBool(b) => Some(if b then "true" else "false")
    case VNumber(text) => Some(text)
    case VString(s) => Some(s)
    case _ => None
  }
}
