/** JSON documents as trees, and what a tree must satisfy to be one the strict
    reader accepts. Text is a sequence of Unicode scalar values. */
module JsonValues {
  import opened Wrappers
  import opened Numerals

  /** Deepest nesting of objects and arrays a document may have. */
  const MAX_DEPTH := 64

  /** A number keeps the text it was written with. */
  datatype Value =
    | Null
    | Bool(b: bool)
    | Number(raw: string)
    | Text(text: string)
    | Array(items: seq<Value>)
    | Object(members: seq<Member>)

  datatype Member = Member(name: string, value: Value)

  datatype ErrorKind = Empty | Syntax | TooDeep | DuplicateMember

  // ---- Numbers, RFC 8259 section 6 -------------------------------------------

  predicate IsInt(s: string) {
    NoLeadingZero(s)
  }

  predicate IsFraction(s: string) {
    s == "" || (|s| > 1 && s[0] == '.' && AllDigits(s[1..]))
  }

  predicate IsExponent(s: string) {
    || s == ""
    || (s[0] in "eE" && |s| > 1 && AllDigits(s[1..]))
    || (s[0] in "eE" && |s| > 2 && s[1] in "+-" && AllDigits(s[2..]))
  }

  datatype NumberParts = NumberParts(minus: bool, whole: string, fraction: string, exponent: string) {
    predicate Valid() {
      IsInt(whole) && IsFraction(fraction) && IsExponent(exponent)
    }

    function Written(): string {
      (if minus then "-" else "") + whole + fraction + exponent
    }
  }

  ghost predicate IsNumber(raw: string) {
    exists parts: NumberParts :: parts.Valid() && parts.Written() == raw
  }

  // ---- Trees --------------------------------------------------------------------

  function Max(a: nat, b: nat): nat {
    if a < b then b else a
  }

  /** Levels of arrays and objects. */
  function Depth(v: Value): nat
    decreases v, 1
  {
    match v
    case Array(items) => 1 + ItemsDepth(items)
    case Object(members) => 1 + MembersDepth(members)
    case _ => 0
  }

  function ItemsDepth(items: seq<Value>): nat
    decreases items, 0
  {
    if items == [] then 0 else Max(Depth(items[0]), ItemsDepth(items[1..]))
  }

  function MembersDepth(members: seq<Member>): nat
    decreases members, 0
  {
    if members == [] then 0 else Max(Depth(members[0].value), MembersDepth(members[1..]))
  }

  predicate DistinctNames(members: seq<Member>) {
    forall i, j | 0 <= i < j < |members| :: members[i].name != members[j].name
  }

  /** Every number follows the grammar and no object names a member twice. */
  ghost predicate Sound(v: Value)
    decreases v
  {
    match v
    case Number(raw) => IsNumber(raw)
    case Array(items) => forall i | 0 <= i < |items| :: Sound(items[i])
    case Object(members) =>
      DistinctNames(members) && forall i | 0 <= i < |members| :: Sound(members[i].value)
    case _ => true
  }

  ghost predicate Acceptable(v: Value) {
    Sound(v) && Depth(v) <= MAX_DEPTH
  }

  lemma {:induction false} ItemDepth(items: seq<Value>, i: nat)
    requires i < |items|
    ensures Depth(items[i]) <= ItemsDepth(items)
  {
    if i > 0 {
      ItemDepth(items[1..], i - 1);
    }
  }

  lemma {:induction false} MemberDepth(members: seq<Member>, i: nat)
    requires i < |members|
    ensures Depth(members[i].value) <= MembersDepth(members)
  {
    if i > 0 {
      MemberDepth(members[1..], i - 1);
    }
  }

  lemma {:induction false} ItemsDepthBound(items: seq<Value>, d: nat)
    requires forall i | 0 <= i < |items| :: Depth(items[i]) <= d
    ensures ItemsDepth(items) <= d
  {
    if items != [] {
      ItemsDepthBound(items[1..], d);
    }
  }

  lemma {:induction false} MembersDepthBound(members: seq<Member>, d: nat)
    requires forall i | 0 <= i < |members| :: Depth(members[i].value) <= d
    ensures MembersDepth(members) <= d
  {
    if members != [] {
      MembersDepthBound(members[1..], d);
    }
  }
}
