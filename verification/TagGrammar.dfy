/**
 The texts that are release tags (parseSemver in backend/src/services/systemUpdateService.ts), spelled out piece by
 piece: an optional "v", three numbers with dots between them, an optional prerelease, optional build metadata.
 */
module TagGrammar {
  import opened Wrappers
  import opened Text
  import opened ReleaseTags

  // ---------- Printing numbers ----------

  function Decimal(n: nat): string {
    if n < 10 then [('0' as int + n) as char] else Decimal(n / 10) + [('0' as int + n % 10) as char]
  }

  /** A number printed in decimal is read back, and has no leading zero. */
  lemma {:induction false} DecimalReadsBack(n: nat)
    ensures Numeric(Decimal(n)) && CleanId(Decimal(n)) && NumberOf(Decimal(n)) == n
    ensures n > 0 ==> Decimal(n)[0] != '0'
  {
    var s := Decimal(n);
    if n < 10 {
      assert s[..0] == "";
    } else {
      DecimalReadsBack(n / 10);
      assert s[..|s| - 1] == Decimal(n / 10);
    }
  }

  // ---------- Which texts are tags ----------

  /** The text made of these pieces. */
  function Pieced(prefix: string, a: string, b: string, c: string, suffix: string): string {
    prefix + (a + "." + (b + "." + (c + suffix)))
  }

  function SuffixText(pre: Option<string>, build: Option<string>): string {
    (if pre.Some? then "-" + pre.value else "") + (if build.Some? then "+" + build.value else "")
  }

  predicate Optionally(text: Option<string>) {
    text.Some? ==> IdText(text.value)
  }

  lemma NumberParses(a: string, rest: string)
    requires Numeric(a) && (rest == "" || !IsDigit(rest[0]))
    ensures ParseNumber(a + rest) == Some((NumberOf(a), rest))
  {
    SpanPrefix(a, rest, IsDigit);
    assert (a + rest)[..|a|] == a && (a + rest)[|a|..] == rest;
  }

  lemma DottedParses(a: string, rest: string)
    requires Numeric(a)
    ensures ParseDotted(a + "." + rest) == Some((NumberOf(a), rest))
  {
    assert a + "." + rest == a + ("." + rest) && ("." + rest)[1..] == rest;
    NumberParses(a, "." + rest);
  }

  lemma SuffixParses(pre: Option<string>, build: Option<string>)
    requires Optionally(pre) && Optionally(build)
    ensures ParseSuffix(SuffixText(pre, build)) == Some(pre)
  {
    var tail := if build.Some? then "+" + build.value else "";
    assert BuildOrEnd(tail) by {
      if build.Some? { assert tail[1..] == build.value; }
    }
    if pre.Some? {
      var s := SuffixText(pre, build);
      assert s == "-" + pre.value + tail && s[1..] == pre.value + tail;
      SpanPrefix(pre.value, tail, IsIdChar);
      assert s[|pre.value| + 1..] == tail && s[1..|pre.value| + 1] == pre.value;
    } else {
      assert SuffixText(pre, build) == tail;
    }
  }

  lemma CleanedPieces(prefix: string, a: string, b: string, c: string, suffix: string)
    requires prefix in ["", "v"] && Numeric(a)
    ensures Cleaned(Pieced(prefix, a, b, c, suffix)) == Pieced("", a, b, c, suffix)
  {
    var rest := a + "." + (b + "." + (c + suffix));
    assert rest[0] == a[0] && IsDigit(a[0]);
    assert "" + rest == rest && ("v" + rest)[1..] == rest;
  }

  /** A text of that shape is a tag, and parses to what its pieces say. */
  lemma PiecesParse(prefix: string, a: string, b: string, c: string, pre: Option<string>, build: Option<string>)
    requires prefix in ["", "v"] && Numeric(a) && Numeric(b) && Numeric(c) && Optionally(pre) && Optionally(build)
    ensures ParseSemver(Pieced(prefix, a, b, c, SuffixText(pre, build))) ==
      Some(Version(NumberOf(a), NumberOf(b), NumberOf(c), pre))
  {
    var suffix := SuffixText(pre, build);
    CleanedPieces(prefix, a, b, c, suffix);
    assert Pieced("", a, b, c, suffix) == a + "." + (b + "." + (c + suffix));
    DottedParses(a, b + "." + (c + suffix));
    DottedParses(b, c + suffix);
    NumberParses(c, suffix);
    SuffixParses(pre, build);
  }

  /** A version printed with its numbers in decimal reads back, with or without "v" and build metadata. */
  lemma PrintedTagParses(prefix: string, v: Version, build: Option<string>)
    requires prefix in ["", "v"] && Optionally(v.pre) && Optionally(build)
    ensures ParseSemver(
      prefix + (Decimal(v.major) + "." + (Decimal(v.minor) + "." + (Decimal(v.patch) + SuffixText(v.pre, build))))) ==
      Some(v)
  {
    DecimalReadsBack(v.major);
    DecimalReadsBack(v.minor);
    DecimalReadsBack(v.patch);
    PiecesParse(prefix, Decimal(v.major), Decimal(v.minor), Decimal(v.patch), v.pre, build);
  }

  // ---------- And no others ----------

  lemma NumberPieces(s: string) returns (a: string)
    requires ParseNumber(s).Some?
    ensures Numeric(a) && s == a + ParseNumber(s).value.1 && NumberOf(a) == ParseNumber(s).value.0
  {
    var n := Span(s, IsDigit);
    a := s[..n];
    assert s == s[..n] + s[n..];
  }

  lemma DottedPieces(s: string) returns (a: string)
    requires ParseDotted(s).Some?
    ensures Numeric(a) && s == a + "." + ParseDotted(s).value.1 && NumberOf(a) == ParseDotted(s).value.0
  {
    a := NumberPieces(s);
    var rest := ParseNumber(s).value.1;
    assert rest == "." + rest[1..];
  }

  lemma BuildPieces(s: string) returns (build: Option<string>)
    requires BuildOrEnd(s)
    ensures Optionally(build) && s == if build.Some? then "+" + build.value else ""
  {
    build := if s == "" then None else Some(s[1..]);
    assert s != "" ==> s == "+" + s[1..];
  }

  lemma SuffixPieces(s: string) returns (build: Option<string>)
    requires ParseSuffix(s).Some?
    ensures Optionally(ParseSuffix(s).value) && Optionally(build) && s == SuffixText(ParseSuffix(s).value, build)
  {
    var pre := ParseSuffix(s).value;
    if pre.Some? {
      SuffixIsIdText(s);
      build := BuildPieces(s[|pre.value| + 1..]);
      assert s == "-" + pre.value + s[|pre.value| + 1..];
    } else {
      build := BuildPieces(s);
    }
  }

  /** Every text that parses has that shape, so the parser accepts these texts and no others. */
  lemma ParsedPieces(tag: string)
    returns (prefix: string, a: string, b: string, c: string, build: Option<string>)
    requires ParseSemver(tag).Some?
    ensures prefix in ["", "v"] && Numeric(a) && Numeric(b) && Numeric(c) && Optionally(build)
    ensures
      var v := ParseSemver(tag).value;
      && tag == prefix + (a + "." + (b + "." + (c + SuffixText(v.pre, build)))) && Optionally(v.pre)
      && v.major == NumberOf(a) && v.minor == NumberOf(b) && v.patch == NumberOf(c)
  {
    prefix := if tag != "" && tag[0] == 'v' then "v" else "";
    assert tag == prefix + Cleaned(tag);
    a := DottedPieces(Cleaned(tag));
    var minor := ParseDotted(Cleaned(tag)).value.1;
    b := DottedPieces(minor);
    var patch := ParseDotted(minor).value.1;
    c := NumberPieces(patch);
    build := SuffixPieces(ParseNumber(patch).value.1);
  }
}
