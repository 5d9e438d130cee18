/** String helpers shared by the models: case, trimming, order and substring search. */
module Text {

  // ---------- Case ----------

  function LowerChar(c: char): char {
    if 'A' <= c <= 'Z' then (c as int + 32) as char else c
  }

  /** ASCII lower-casing; no character outside A-Z lower-cases to a letter the models look for. */
  function Lower(s: string): (r: string)
    ensures |r| == |s| && forall i :: 0 <= i < |s| ==> r[i] == LowerChar(s[i])
  {
    seq(|s|, i requires 0 <= i < |s| => LowerChar(s[i]))
  }

  function UpperChar(c: char): char {
    if 'a' <= c <= 'z' then (c as int - 32) as char else c
  }

  function Upper(s: string): string {
    seq(|s|, i requires 0 <= i < |s| => UpperChar(s[i]))
  }

  /** Lower-casing leaves no capitals, and changes nothing but letter case. */
  lemma LowerIsLower(s: string, i: nat)
    requires i < |s|
    ensures !('A' <= Lower(s)[i] <= 'Z') && Upper(Lower(s)) == Upper(s) && Lower(Lower(s)) == Lower(s)
    ensures !('a' <= Upper(s)[i] <= 'z') && Lower(Upper(s)) == Lower(s)
  {
  }

  // ---------- Trimming ----------

  predicate IsSpace(c: char) {
    var n := c as int;
    9 <= n <= 13 || n == 0x20 || n == 0xA0 || n == 0x1680 || 0x2000 <= n <= 0x200A || n == 0x2028 || n == 0x2029
    || n == 0x202F || n == 0x205F || n == 0x3000 || n == 0xFEFF
  }

  function TrimStart(s: string): (t: string)
    ensures t == "" || !IsSpace(t[0])
    ensures s != "" && !IsSpace(s[0]) ==> t == s
  {
    if s != "" && IsSpace(s[0]) then TrimStart(s[1..]) else s
  }

  function TrimEnd(s: string): (t: string)
    ensures t == "" || !IsSpace(t[|t| - 1])
    ensures t <= s
    ensures s != "" && !IsSpace(s[|s| - 1]) ==> t == s
  {
    if s != "" && IsSpace(s[|s| - 1]) then TrimEnd(s[..|s| - 1]) else s
  }

  function Trim(s: string): string {
    TrimEnd(TrimStart(s))
  }

  lemma TrimIdempotent(s: string)
    ensures Trim(Trim(s)) == Trim(s)
  {
    var t := Trim(s);
    assert t != "" ==> t[0] == TrimStart(s)[0];
  }

  /** Trimming cuts white space off both ends, all of it, and nothing else. */
  lemma TrimCuts(s: string) returns (left: string, right: string)
    ensures s == left + Trim(s) + right
    ensures forall c :: c in left || c in right ==> IsSpace(c)
    ensures Trim(s) != "" ==> !IsSpace(Trim(s)[0]) && !IsSpace(Trim(s)[|Trim(s)| - 1])
  {
    left := StartCut(s);
    right := EndCut(TrimStart(s));
    assert Trim(s) != "" ==> Trim(s)[0] == TrimStart(s)[0];
    assert s == left + (Trim(s) + right) == left + Trim(s) + right;
  }

  lemma {:induction false} StartCut(s: string) returns (left: string)
    ensures s == left + TrimStart(s) && forall c :: c in left ==> IsSpace(c)
  {
    left := "";
    if s != "" && IsSpace(s[0]) {
      var cut := StartCut(s[1..]);
      left := [s[0]] + cut;
      assert s == [s[0]] + s[1..] == [s[0]] + (cut + TrimStart(s)) == left + TrimStart(s);
    }
  }

  lemma {:induction false} EndCut(s: string) returns (right: string)
    ensures s == TrimEnd(s) + right && forall c :: c in right ==> IsSpace(c)
  {
    right := "";
    if s != "" && IsSpace(s[|s| - 1]) {
      var cut := EndCut(s[..|s| - 1]);
      right := cut + [s[|s| - 1]];
      assert TrimEnd(s) == TrimEnd(s[..|s| - 1]);
      assert s == s[..|s| - 1] + [s[|s| - 1]] == (TrimEnd(s) + cut) + [s[|s| - 1]] == TrimEnd(s) + right;
    }
  }

  predicate AllSpace(s: string) {
    forall i :: 0 <= i < |s| ==> IsSpace(s[i])
  }

  /** White space around a text is never seen. */
  lemma TrimIgnores(left: string, s: string, right: string)
    requires AllSpace(left) && AllSpace(right)
    ensures Trim(left + (s + right)) == Trim(s)
  {
    StartSkips(left, s + right);
    StartKeeps(s, right);
    EndSkips(TrimStart(s), right);
  }

  lemma {:induction false} StartSkips(left: string, s: string)
    requires AllSpace(left)
    ensures TrimStart(left + s) == TrimStart(s)
  {
    if left == "" {
      assert "" + s == s;
    } else {
      StartSkips(left[1..], s);
      assert (left + s)[1..] == left[1..] + s;
    }
  }

  /** What follows a text stays, or is all trimmed if nothing of the text does. */
  lemma {:induction false} StartKeeps(s: string, right: string)
    requires AllSpace(right)
    ensures TrimEnd(TrimStart(s + right)) == TrimEnd(TrimStart(s) + right)
  {
    if s == "" {
      BlankTrimmed(right);
      assert s + right == right == TrimStart(s) + right;
    } else {
      assert (s + right)[1..] == s[1..] + right;
      if IsSpace(s[0]) { StartKeeps(s[1..], right); }
    }
  }

  lemma BlankTrimmed(s: string)
    requires AllSpace(s)
    ensures TrimStart(s) == "" == TrimEnd(s)
  {
    StartSkips(s, "");
    EndSkips("", s);
    assert s + "" == s == "" + s;
  }

  lemma {:induction false} EndSkips(s: string, right: string)
    requires AllSpace(right)
    ensures TrimEnd(s + right) == TrimEnd(s)
    decreases |right|
  {
    if right == "" {
      assert s + "" == s;
    } else {
      var last := |right| - 1;
      EndSkips(s, right[..last]);
      assert (s + right)[..|s| + last] == s + right[..last];
    }
  }

  // ---------- Order ----------

  /** Rank of a character in UTF-16 code-unit order: astral characters sort as their surrogates. */
  function UnitRank(c: char): int {
    var n := c as int;
    if n < 0xD800 then n else if n < 0x10000 then n + 0x100000 else n - 0x10000 + 0xD800
  }

  /** JavaScript's `s < t` on strings, also the default of its sort: by code unit, a proper prefix first. */
  predicate Less(s: string, t: string) {
    t != "" && (s == "" || UnitRank(s[0]) < UnitRank(t[0]) || (s[0] == t[0] && Less(s[1..], t[1..])))
  }

  lemma {:induction false} LessTransitive(s: string, t: string, u: string)
    requires Less(s, t) && Less(t, u)
    ensures Less(s, u)
  {
    if s != "" && s[0] == t[0] == u[0] { LessTransitive(s[1..], t[1..], u[1..]); }
  }

  lemma {:induction false} LessTotal(s: string, t: string)
    ensures s == t || Less(s, t) || Less(t, s)
    ensures !(Less(s, t) && Less(t, s)) && !Less(s, s)
  {
    if s != "" && t != "" && s[0] == t[0] {
      LessTotal(s[1..], t[1..]);
      assert s == [s[0]] + s[1..] && t == [t[0]] + t[1..];
    }
    if s != "" { LessTotal(s[1..], s[1..]); }
  }

  // ---------- Runs of characters ----------

  predicate IsDigit(c: char) {
    '0' <= c <= '9'
  }

  predicate Numeric(s: string) {
    s != "" && forall i :: 0 <= i < |s| ==> IsDigit(s[i])
  }

  /** The length of the longest prefix whose characters satisfy `p`: a greedy repetition. */
  function Span(s: string, p: char -> bool): (n: nat)
    ensures n <= |s| && (forall i :: 0 <= i < n ==> p(s[i])) && (n < |s| ==> !p(s[n]))
  {
    if s == "" || !p(s[0]) then 0 else 1 + Span(s[1..], p)
  }

  lemma SpanAll(s: string, p: char -> bool)
    requires forall i :: 0 <= i < |s| ==> p(s[i])
    ensures Span(s, p) == |s|
  {
  }

  lemma {:induction false} SpanPrefix(s: string, rest: string, p: char -> bool)
    requires (forall i :: 0 <= i < |s| ==> p(s[i])) && (rest == "" || !p(rest[0]))
    ensures Span(s + rest, p) == |s|
  {
    if s != "" {
      SpanPrefix(s[1..], rest, p);
      assert (s + rest)[1..] == s[1..] + rest;
    }
  }

  // ---------- Searching ----------

  /** JavaScript's `s.includes(t)`. */
  predicate Includes(s: string, t: string) {
    t <= s || (s != "" && Includes(s[1..], t))
  }

  predicate OccursAt(s: string, t: string, i: nat) {
    i + |t| <= |s| && s[i..i + |t|] == t
  }

  lemma OccursTail(s: string, t: string, i: nat)
    requires s != ""
    ensures OccursAt(s[1..], t, i) <==> OccursAt(s, t, i + 1)
  {
    if i + 1 + |t| <= |s| { assert s[1..][i..i + |t|] == s[i + 1..i + 1 + |t|]; }
  }

  /** The search succeeds exactly when the pattern occurs at some position. */
  lemma {:induction false} IncludesOccurs(s: string, t: string)
    ensures Includes(s, t) <==> exists i: nat :: OccursAt(s, t, i)
  {
    if t <= s {
      assert OccursAt(s, t, 0);
    } else if s != "" {
      IncludesOccurs(s[1..], t);
      if i: nat :| OccursAt(s[1..], t, i) { OccursTail(s, t, i); }
      if i: nat :| OccursAt(s, t, i) {
        if i > 0 { OccursTail(s, t, i - 1); }
      }
    }
  }

  lemma IncludesMember(s: string, t: string, k: nat)
    requires Includes(s, t) && k < |t|
    ensures t[k] in s
  {
    IncludesOccurs(s, t);
    var i: nat :| OccursAt(s, t, i);
    assert s[i + k] == s[i..i + |t|][k];
  }
}
