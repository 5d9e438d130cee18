/**
 The sorted-key printer (backend/src/services/configChangeService.ts, stableStringify)
 and its faithfulness: two documents print alike exactly when they mean the same JSON value.
 */
module StableStringify {
  import opened JsonValue
  import opened Text

  /** A parsed document as JavaScript holds it: objects remember the order of their keys. */
  datatype Doc =
    | DNull
    | DBool(b: bool)
    | DNum(token: NumToken)
    | DStr(s: string)
    | DArr(items: seq<Doc>)
    | DObj(members: seq<(string, Doc)>)

  ghost predicate DistinctKeys(members: seq<(string, Doc)>) {
    forall i, j :: 0 <= i < j < |members| ==> members[i].0 != members[j].0
  }

  /** Object keys are distinct at every depth. */
  ghost predicate Valid(d: Doc) {
    match d
    case DArr(items) => forall i :: 0 <= i < |items| ==> Valid(items[i])
    case DObj(members) => DistinctKeys(members) && forall i :: 0 <= i < |members| ==> Valid(members[i].1)
    case _ => true
  }

  function KeySet(members: seq<(string, Doc)>): set<string> {
    set m | m in members :: m.0
  }

  function Lookup(members: seq<(string, Doc)>, k: string): (d: Doc)
    requires k in KeySet(members)
    ensures (k, d) in members
  {
    if members[0].0 == k then members[0].1
    else
      assert k in KeySet(members[1..]) by {
        var m :| m in members && m.0 == k;
        assert m in members[1..];
      }
      Lookup(members[1..], k)
  }

  /** The order-free meaning of a document. */
  ghost function Value(d: Doc): Json {
    match d
    case DNull => Null
    case DBool(b) => Bool(b)
    case DNum(t) => Num(t)
    case DStr(s) => Str(s)
    case DArr(items) => Arr(seq(|items|, i requires 0 <= i < |items| => Value(items[i])))
    case DObj(members) => Obj(map k | k in KeySet(members) :: Value(Lookup(members, k)))
  }

  // ---------- JSON.stringify on strings ----------

  function HexDigit(n: nat): char
    requires n < 16
  {
    if n < 10 then ('0' as int + n) as char else ('a' as int + n - 10) as char
  }

  function EscapeChar(c: char): string {
    if c == '\"' then "\\\""
    else if c == '\\' then "\\\\"
    else if c as int == 8 then "\\b"
    else if c as int == 9 then "\\t"
    else if c as int == 10 then "\\n"
    else if c as int == 12 then "\\f"
    else if c as int == 13 then "\\r"
    else if c as int < 32 then "\\u00" + [HexDigit(c as int / 16), HexDigit(c as int % 16)]
    else [c]
  }

  function Escape(s: string): string {
    if s == "" then "" else EscapeChar(s[0]) + Escape(s[1..])
  }

  function Quote(s: string): string {
    "\"" + Escape(s) + "\""
  }

  // ---------- Key order ----------

  ghost predicate Ascending(ks: seq<string>) {
    forall i, j :: 0 <= i < j < |ks| ==> Less(ks[i], ks[j])
  }

  function InsertKey(k: string, ks: seq<string>): (r: seq<string>)
    ensures forall x :: x in r <==> x == k || x in ks
  {
    if ks == [] || Less(k, ks[0]) then [k] + ks else [ks[0]] + InsertKey(k, ks[1..])
  }

  function SortKeys(ks: seq<string>): (r: seq<string>)
    ensures forall x :: x in r <==> x in ks
  {
    if ks == [] then [] else InsertKey(ks[0], SortKeys(ks[1..]))
  }

  lemma {:induction false} InsertKeyAscends(k: string, ks: seq<string>)
    requires Ascending(ks) && k !in ks
    ensures Ascending(InsertKey(k, ks))
  {
    if ks != [] {
      LessTotal(k, ks[0]);
      if Less(k, ks[0]) {
        forall j | 1 <= j < |ks|
          ensures Less(k, ks[j])
        {
          LessTransitive(k, ks[0], ks[j]);
        }
      } else {
        InsertKeyAscends(k, ks[1..]);
        var rest := InsertKey(k, ks[1..]);
        forall j | 0 <= j < |rest|
          ensures Less(ks[0], rest[j])
        {
          assert rest[j] in rest;
        }
      }
    }
  }

  lemma {:induction false} SortKeysAscends(ks: seq<string>)
    requires forall i, j :: 0 <= i < j < |ks| ==> ks[i] != ks[j]
    ensures Ascending(SortKeys(ks))
  {
    if ks != [] {
      SortKeysAscends(ks[1..]);
      InsertKeyAscends(ks[0], SortKeys(ks[1..]));
    }
  }

  /** A set of keys has only one ascending listing, so sorting forgets the original order. */
  lemma {:induction false} AscendingUnique(ks: seq<string>, ls: seq<string>)
    requires Ascending(ks) && Ascending(ls)
    requires forall x :: x in ks <==> x in ls
    ensures ks == ls
  {
    assert (ls != [] ==> ls[0] in ks) && (ks != [] ==> ks[0] in ls);
    if ks != [] {
      LessTotal(ks[0], ls[0]);
      assert ks[0] == ls[0];
      TailKeys(ks, ls);
      TailKeys(ls, ks);
      AscendingUnique(ks[1..], ls[1..]);
    }
  }

  lemma TailKeys(ks: seq<string>, ls: seq<string>)
    requires Ascending(ks) && ks != [] && ls != [] && ks[0] == ls[0]
    requires forall x :: x in ks ==> x in ls
    ensures forall x :: x in ks[1..] ==> x in ls[1..]
  {
    forall x | x in ks[1..]
      ensures x in ls[1..]
    {
      var i :| 0 <= i < |ks[1..]| && ks[1..][i] == x;
      assert Less(ks[0], ks[i + 1]) && ks[i + 1] in ks;
      LessTotal(ks[0], x);
      var j :| 0 <= j < |ls| && ls[j] == x;
      assert ls[1..][j - 1] == x;
    }
  }

  // ---------- The printer ----------

  function Join(parts: seq<string>): string {
    if parts == [] then "" else if |parts| == 1 then parts[0] else parts[0] + "," + Join(parts[1..])
  }

  /** Object.keys: the keys in insertion order. */
  function Keys(members: seq<(string, Doc)>): (ks: seq<string>)
    ensures |ks| == |members| && forall i :: 0 <= i < |ks| ==> ks[i] == members[i].0
    ensures forall k :: k in ks <==> k in KeySet(members)
  {
    var ks := seq(|members|, i requires 0 <= i < |members| => members[i].0);
    assert forall i :: 0 <= i < |members| ==> ks[i] == members[i].0;
    ks
  }

  function Stringify(d: Doc): string
    decreases d, 1
  {
    match d
    case DNull => "null"
    case DBool(b) => if b then "true" else "false"
    case DNum(t) => t
    case DStr(s) => Quote(s)
    case DArr(items) => "[" + Join(seq(|items|, i requires 0 <= i < |items| => Stringify(items[i]))) + "]"
    case DObj(members) =>
      var ks := SortKeys(Keys(members));
      "{" + Join(seq(|ks|, i requires 0 <= i < |ks| => Member(d, ks[i]))) + "}"
  }

  function Member(d: Doc, k: string): string
    requires d.DObj? && k in KeySet(d.members)
    decreases d, 0
  {
    Quote(k) + ":" + Stringify(Lookup(d.members, k))
  }

  // ---------- Same value, same text ----------

  ghost function ItemTexts(d: Doc): seq<string>
    requires d.DArr?
  {
    seq(|d.items|, i requires 0 <= i < |d.items| => Stringify(d.items[i]))
  }

  ghost function MemberTexts(d: Doc): seq<string>
    requires d.DObj?
  {
    var ks := SortKeys(Keys(d.members));
    seq(|ks|, i requires 0 <= i < |ks| => Member(d, ks[i]))
  }

  lemma SortedKeysOf(d: Doc)
    requires Valid(d) && d.DObj?
    ensures Ascending(SortKeys(Keys(d.members)))
    ensures forall k :: k in SortKeys(Keys(d.members)) <==> k in KeySet(d.members)
  {
    SortKeysAscends(Keys(d.members));
  }

  /** Key order, at any depth, does not show in the text. */
  lemma {:induction false} SameValueSameText(a: Doc, b: Doc)
    requires Valid(a) && Valid(b) && Value(a) == Value(b)
    ensures Stringify(a) == Stringify(b)
  {
    match a
    case DArr(items) =>
      var va, vb := Value(a).items, Value(b).items;
      assert |va| == |items| == |vb| == |b.items|;
      forall i | 0 <= i < |items|
        ensures Stringify(items[i]) == Stringify(b.items[i])
      {
        assert va[i] == Value(items[i]) && vb[i] == Value(b.items[i]);
        SameValueSameText(items[i], b.items[i]);
      }
      assert ItemTexts(a) == ItemTexts(b);
    case DObj(members) =>
      var va, vb := Value(a).fields, Value(b).fields;
      assert KeySet(members) == va.Keys == vb.Keys == KeySet(b.members);
      SortedKeysOf(a);
      SortedKeysOf(b);
      AscendingUnique(SortKeys(Keys(members)), SortKeys(Keys(b.members)));
      forall k | k in KeySet(members)
        ensures Member(a, k) == Member(b, k)
      {
        assert va[k] == Value(Lookup(members, k)) && vb[k] == Value(Lookup(b.members, k));
        SameValueSameText(Lookup(members, k), Lookup(b.members, k));
      }
      assert MemberTexts(a) == MemberTexts(b);
    case _ =>
  }

  // ---------- Same text, same value ----------

  /** What may follow a value inside a larger text: nothing, or a separator. */
  predicate Delimited(rest: string) {
    rest == "" || rest[0] == ',' || rest[0] == ']' || rest[0] == '}'
  }

  lemma SplitConcat(x: string, y: string, r: string, s: string)
    requires x + r == y + s && |x| == |y|
    ensures x == y && r == s
  {
    assert x == (x + r)[..|x|] && y == (y + s)[..|y|];
    assert r == (x + r)[|x|..] && s == (y + s)[|y|..];
  }

  lemma NumberReadsBack(x: NumToken, y: NumToken, r: string, s: string)
    requires x + r == y + s && Delimited(r) && Delimited(s)
    ensures x == y && r == s
  {
    var t := x + r;
    assert forall i :: 0 <= i < |x| ==> NumberChar(t[i]);
    assert forall i :: 0 <= i < |y| ==> NumberChar((y + s)[i]);
    assert |x| < |t| ==> !NumberChar(t[|x|]);
    assert |y| < |t| ==> !NumberChar((y + s)[|y|]);
    SplitConcat(x, y, r, s);
  }

  lemma EscapeCharReadsBack(c: char, d: char, x: string, y: string)
    requires EscapeChar(c) + x == EscapeChar(d) + y
    ensures c == d && x == y
  {
    var u, v := EscapeChar(c) + x, EscapeChar(d) + y;
    assert u[0] == EscapeChar(c)[0] && v[0] == EscapeChar(d)[0];
    if u[0] == '\\' {
      assert u[1] == EscapeChar(c)[1] && v[1] == EscapeChar(d)[1];
      if u[1] == 'u' {
        assert u[4] == EscapeChar(c)[4] && v[4] == EscapeChar(d)[4];
        assert u[5] == EscapeChar(c)[5] && v[5] == EscapeChar(d)[5];
        HexReadsBack(c as int / 16, d as int / 16);
        HexReadsBack(c as int % 16, d as int % 16);
      }
    }
    SplitConcat(EscapeChar(c), EscapeChar(d), x, y);
  }

  lemma HexReadsBack(m: nat, n: nat)
    requires m < 16 && n < 16 && HexDigit(m) == HexDigit(n)
    ensures m == n
  {
  }

  /** The closing quote comes first exactly when nothing is left of the string. */
  lemma EscapeOpening(s: string, x: string)
    ensures (Escape(s) + ("\"" + x))[0] == '\"' <==> s == ""
  {
    if s != "" {
      assert Escape(s)[0] == EscapeChar(s[0])[0];
    }
  }

  lemma EscapeStep(s: string, x: string)
    requires s != ""
    ensures Escape(s) + ("\"" + x) == EscapeChar(s[0]) + (Escape(s[1..]) + ("\"" + x))
  {
    var c, rest := EscapeChar(s[0]), Escape(s[1..]);
    assert (c + rest) + ("\"" + x) == c + (rest + ("\"" + x));
  }

  lemma {:induction false} EscapeReadsBack(s: string, t: string, x: string, y: string)
    requires Escape(s) + ("\"" + x) == Escape(t) + ("\"" + y)
    ensures s == t && x == y
  {
    var u, v := Escape(s) + ("\"" + x), Escape(t) + ("\"" + y);
    EscapeOpening(s, x);
    EscapeOpening(t, y);
    assert s == "" <==> t == "";
    if s == "" {
      assert x == u[1..] && y == v[1..];
    } else {
      EscapeStep(s, x);
      EscapeStep(t, y);
      EscapeCharReadsBack(s[0], t[0], Escape(s[1..]) + ("\"" + x), Escape(t[1..]) + ("\"" + y));
      EscapeReadsBack(s[1..], t[1..], x, y);
      assert s == [s[0]] + s[1..] && t == [t[0]] + t[1..];
    }
  }

  lemma QuoteText(e: string, x: string)
    ensures ("\"" + e + "\"") + x == "\"" + (e + ("\"" + x))
  {
  }

  lemma QuoteReadsBack(s: string, t: string, x: string, y: string)
    requires Quote(s) + x == Quote(t) + y
    ensures s == t && x == y
  {
    QuoteText(Escape(s), x);
    QuoteText(Escape(t), y);
    SplitConcat("\"", "\"", Escape(s) + ("\"" + x), Escape(t) + ("\"" + y));
    EscapeReadsBack(s, t, x, y);
  }

  /** The first character of a printed value tells its kind. */
  predicate OpensWith(d: Doc, c: char) {
    match d
    case DNull => c == 'n'
    case DBool(b) => c == if b then 't' else 'f'
    case DNum(_) => '0' <= c <= '9' || c == '-'
    case DStr(_) => c == '\"'
    case DArr(_) => c == '['
    case DObj(_) => c == '{'
  }

  lemma Opening(d: Doc)
    ensures Stringify(d) != "" && OpensWith(d, Stringify(d)[0])
  {
  }

  /** A list of printed items, and what follows it, can be read in only one way. */
  lemma {:induction false} ItemsReadBack(ps: seq<Doc>, qs: seq<Doc>, x: string, y: string)
    requires forall i :: 0 <= i < |ps| ==> Valid(ps[i])
    requires forall i :: 0 <= i < |qs| ==> Valid(qs[i])
    requires ListText(ps) + ("]" + x) == ListText(qs) + ("]" + y)
    ensures |ps| == |qs| && x == y
    ensures forall i :: 0 <= i < |ps| ==> Value(ps[i]) == Value(qs[i])
    decreases ps, 0, 0
  {
    var u, v := ListText(ps) + ("]" + x), ListText(qs) + ("]" + y);
    ListTextStep(ps, x);
    ListTextStep(qs, y);
    ListOpening(ps, x);
    ListOpening(qs, y);
    assert ps == [] <==> qs == [];
    if ps == [] {
      assert x == u[1..] && y == v[1..];
    } else {
      ReadsBack(ps[0], qs[0], Continuation(ps, x), Continuation(qs, y));
      if |ps| == 1 || |qs| == 1 {
        assert Continuation(ps, x)[0] == Continuation(qs, y)[0];
        assert x == Continuation(ps, x)[1..] && y == Continuation(qs, y)[1..];
      } else {
        assert ListText(ps[1..]) + ("]" + x) == Continuation(ps, x)[1..];
        assert ListText(qs[1..]) + ("]" + y) == Continuation(qs, y)[1..];
        ItemsReadBack(ps[1..], qs[1..], x, y);
        forall i | 0 <= i < |ps|
          ensures Value(ps[i]) == Value(qs[i])
        {
          if i > 0 { assert ps[i] == ps[1..][i - 1] && qs[i] == qs[1..][i - 1]; }
        }
      }
    }
  }

  ghost function ListText(items: seq<Doc>): string {
    Join(seq(|items|, i requires 0 <= i < |items| => Stringify(items[i])))
  }

  /** What follows the first item of a nonempty list. */
  ghost function Continuation(items: seq<Doc>, x: string): string
    requires items != []
  {
    if |items| == 1 then "]" + x else "," + (ListText(items[1..]) + ("]" + x))
  }

  /** The closing bracket comes first exactly when the list is empty. */
  lemma ListOpening(items: seq<Doc>, x: string)
    ensures (ListText(items) + ("]" + x))[0] == ']' <==> items == []
  {
    ListTextStep(items, x);
    if items != [] {
      Opening(items[0]);
      assert (Stringify(items[0]) + Continuation(items, x))[0] == Stringify(items[0])[0];
    }
  }

  lemma ListTextStep(items: seq<Doc>, x: string)
    ensures items == [] ==> ListText(items) == ""
    ensures items != [] ==> ListText(items) + ("]" + x) == Stringify(items[0]) + Continuation(items, x)
  {
    if |items| > 1 {
      var first, rest := Stringify(items[0]), items[1..];
      var texts := seq(|items|, i requires 0 <= i < |items| => Stringify(items[i]));
      assert texts[1..] == seq(|rest|, i requires 0 <= i < |rest| => Stringify(rest[i]));
      assert ListText(items) == first + "," + ListText(rest);
      CloseText(ListText(rest), first, x);
    }
  }

  lemma CloseText(t: string, first: string, x: string)
    ensures "{" + t + "}" + x == "{" + (t + ("}" + x))
    ensures "[" + t + "]" + x == "[" + (t + ("]" + x))
    ensures (first + "," + t) + ("}" + x) == first + ("," + (t + ("}" + x)))
    ensures (first + "," + t) + ("]" + x) == first + ("," + (t + ("]" + x)))
  {
  }

  ghost function MembersText(d: Doc, ks: seq<string>): string
    requires d.DObj? && forall k :: k in ks ==> k in KeySet(d.members)
  {
    Join(seq(|ks|, i requires 0 <= i < |ks| => Member(d, ks[i])))
  }

  ghost function MembersContinuation(d: Doc, ks: seq<string>, x: string): string
    requires d.DObj? && (forall k :: k in ks ==> k in KeySet(d.members)) && ks != []
  {
    if |ks| == 1 then "}" + x else "," + (MembersText(d, ks[1..]) + ("}" + x))
  }

  lemma Reassociate(k: string, v: string, c: string)
    ensures (k + ":" + v) + c == k + (":" + (v + c))
  {
  }

  lemma MembersTextStep(d: Doc, ks: seq<string>, x: string)
    requires d.DObj? && forall k :: k in ks ==> k in KeySet(d.members)
    ensures ks == [] ==> MembersText(d, ks) == ""
    ensures ks != [] ==>
      var v := Stringify(Lookup(d.members, ks[0]));
      MembersText(d, ks) + ("}" + x) == Quote(ks[0]) + (":" + (v + MembersContinuation(d, ks, x)))
  {
    if ks != [] {
      var first := Member(d, ks[0]);
      if |ks| > 1 {
        var texts := seq(|ks|, i requires 0 <= i < |ks| => Member(d, ks[i]));
        var rest := ks[1..];
        assert texts[1..] == seq(|rest|, i requires 0 <= i < |rest| => Member(d, rest[i]));
        assert MembersText(d, ks) == first + "," + MembersText(d, rest);
        CloseText(MembersText(d, rest), first, x);
      }
      assert MembersText(d, ks) + ("}" + x) == first + MembersContinuation(d, ks, x);
      Reassociate(Quote(ks[0]), Stringify(Lookup(d.members, ks[0])), MembersContinuation(d, ks, x));
    }
  }

  lemma MembersOpening(d: Doc, ks: seq<string>, x: string)
    requires d.DObj? && forall k :: k in ks ==> k in KeySet(d.members)
    ensures (MembersText(d, ks) + ("}" + x))[0] == '}' <==> ks == []
  {
    MembersTextStep(d, ks, x);
  }

  /** One printed member: its key, the colon, its value. */
  lemma {:induction false} MemberReadsBack(a: Doc, b: Doc, k: string, l: string, x: string, y: string)
    requires Valid(a) && Valid(b) && a.DObj? && b.DObj? && k in KeySet(a.members) && l in KeySet(b.members)
    requires Delimited(x) && Delimited(y)
    requires
      Quote(k) + (":" + (Stringify(Lookup(a.members, k)) + x))
      == Quote(l) + (":" + (Stringify(Lookup(b.members, l)) + y))
    ensures k == l && x == y && Value(Lookup(a.members, k)) == Value(Lookup(b.members, l))
    decreases a, 0, 0
  {
    var va, vb := Lookup(a.members, k), Lookup(b.members, l);
    QuoteReadsBack(k, l, ":" + (Stringify(va) + x), ":" + (Stringify(vb) + y));
    SplitConcat(":", ":", Stringify(va) + x, Stringify(vb) + y);
    ReadsBack(va, vb, x, y);
  }

  /** The printed members of an object can be read in only one way. */
  lemma {:induction false} MembersReadBack(a: Doc, b: Doc, ks: seq<string>, ls: seq<string>, x: string, y: string)
    requires Valid(a) && Valid(b) && a.DObj? && b.DObj?
    requires forall k :: k in ks ==> k in KeySet(a.members)
    requires forall l :: l in ls ==> l in KeySet(b.members)
    requires MembersText(a, ks) + ("}" + x) == MembersText(b, ls) + ("}" + y)
    ensures ks == ls && x == y
    ensures forall k :: k in ks ==> Value(Lookup(a.members, k)) == Value(Lookup(b.members, k))
    decreases a, 0, |ks|
  {
    var u, v := MembersText(a, ks) + ("}" + x), MembersText(b, ls) + ("}" + y);
    MembersTextStep(a, ks, x);
    MembersTextStep(b, ls, y);
    MembersOpening(a, ks, x);
    MembersOpening(b, ls, y);
    assert ks == [] <==> ls == [];
    if ks == [] {
      assert x == u[1..] && y == v[1..];
    } else {
      MemberReadsBack(a, b, ks[0], ls[0], MembersContinuation(a, ks, x), MembersContinuation(b, ls, y));
      MembersRest(a, b, ks, ls, x, y);
      if |ks| > 1 {
        MembersReadBack(a, b, ks[1..], ls[1..], x, y);
      }
      assert ks == [ks[0]] + ks[1..] && ls == [ls[0]] + ls[1..];
    }
  }

  lemma MembersRest(a: Doc, b: Doc, ks: seq<string>, ls: seq<string>, x: string, y: string)
    requires a.DObj? && b.DObj? && ks != [] && ls != []
    requires forall k :: k in ks ==> k in KeySet(a.members)
    requires forall l :: l in ls ==> l in KeySet(b.members)
    requires MembersContinuation(a, ks, x) == MembersContinuation(b, ls, y)
    ensures |ks| == 1 <==> |ls| == 1
    ensures |ks| == 1 ==> x == y
    ensures |ks| > 1 ==> MembersText(a, ks[1..]) + ("}" + x) == MembersText(b, ls[1..]) + ("}" + y)
  {
    var ca, cb := MembersContinuation(a, ks, x), MembersContinuation(b, ls, y);
    assert ca[0] == if |ks| == 1 then '}' else ',';
    assert cb[0] == if |ls| == 1 then '}' else ',';
    assert ca[1..] == if |ks| == 1 then x else MembersText(a, ks[1..]) + ("}" + x);
    assert cb[1..] == if |ls| == 1 then y else MembersText(b, ls[1..]) + ("}" + y);
  }

  lemma SameKind(a: Doc, b: Doc, x: string, y: string)
    requires Stringify(a) + x == Stringify(b) + y
    ensures exists c :: OpensWith(a, c) && OpensWith(b, c)
  {
    Opening(a);
    Opening(b);
    var c := (Stringify(a) + x)[0];
    assert OpensWith(a, c) && OpensWith(b, c);
  }

  lemma {:induction false} ArrayReadsBack(a: Doc, b: Doc, x: string, y: string)
    requires Valid(a) && Valid(b) && a.DArr? && b.DArr? && Stringify(a) + x == Stringify(b) + y
    ensures Value(a) == Value(b) && x == y
    decreases a, 1, 0
  {
    CloseText(ListText(a.items), "", x);
    CloseText(ListText(b.items), "", y);
    SplitConcat("[", "[", ListText(a.items) + ("]" + x), ListText(b.items) + ("]" + y));
    ItemsReadBack(a.items, b.items, x, y);
    assert Value(a).items == Value(b).items;
  }

  ghost function SortedKeys(d: Doc): seq<string>
    requires d.DObj?
  {
    SortKeys(Keys(d.members))
  }

  lemma ObjectText(d: Doc, x: string)
    requires d.DObj?
    ensures Stringify(d) + x == "{" + (MembersText(d, SortedKeys(d)) + ("}" + x))
  {
    CloseText(MembersText(d, SortedKeys(d)), "", x);
  }

  lemma SameFields(a: Doc, b: Doc)
    requires a.DObj? && b.DObj? && KeySet(a.members) == KeySet(b.members)
    requires forall k :: k in KeySet(a.members) ==> Value(Lookup(a.members, k)) == Value(Lookup(b.members, k))
    ensures Value(a) == Value(b)
  {
    assert Value(a).fields == Value(b).fields;
  }

  lemma {:induction false} ObjectReadsBack(a: Doc, b: Doc, x: string, y: string)
    requires Valid(a) && Valid(b) && a.DObj? && b.DObj? && Stringify(a) + x == Stringify(b) + y
    ensures Value(a) == Value(b) && x == y
    decreases a, 1, 0
  {
    var ks, ls := SortedKeys(a), SortedKeys(b);
    ObjectText(a, x);
    ObjectText(b, y);
    SplitConcat("{", "{", MembersText(a, ks) + ("}" + x), MembersText(b, ls) + ("}" + y));
    MembersReadBack(a, b, ks, ls, x, y);
    assert (forall k :: k in KeySet(a.members) <==> k in ks) && forall k :: k in KeySet(b.members) <==> k in ls;
    SameFields(a, b);
  }

  /** A printed value followed by a separator can be read in only one way, up to key order. */
  lemma {:induction false} ReadsBack(a: Doc, b: Doc, x: string, y: string)
    requires Valid(a) && Valid(b) && Delimited(x) && Delimited(y)
    requires Stringify(a) + x == Stringify(b) + y
    ensures Value(a) == Value(b) && x == y
    decreases a, 2, 0
  {
    SameKind(a, b, x, y);
    match a
    case DNum(t) => NumberReadsBack(t, b.token, x, y);
    case DStr(s) => QuoteReadsBack(s, b.s, x, y);
    case DArr(_) => ArrayReadsBack(a, b, x, y);
    case DObj(_) => ObjectReadsBack(a, b, x, y);
    case _ => SplitConcat(Stringify(a), Stringify(b), x, y);
  }

  /** The comparison the change log relies on: equal text exactly for equal JSON values, key order ignored. */
  lemma SameTextIffSameValue(a: Doc, b: Doc)
    requires Valid(a) && Valid(b)
    ensures Stringify(a) == Stringify(b) <==> Value(a) == Value(b)
  {
    if Stringify(a) == Stringify(b) {
      assert Stringify(a) + "" == Stringify(b) + "";
      ReadsBack(a, b, "", "");
    } else if Value(a) == Value(b) {
      SameValueSameText(a, b);
    }
  }
}
