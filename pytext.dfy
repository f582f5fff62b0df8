/**
 * The two Python string operations the recorder relies on: `str.strip()`
 * with no argument, and `str.split(" ")` with an explicit separator.
 */
module PyText {

  /** `str.isspace()` for one character: the characters `str.strip()` removes. */
  predicate IsSpace(c: char)
  {
    || c == ' '
    || ('\t' <= c <= '\r')
    || ('\U{1C}' <= c <= '\U{1F}')
    || c == '\U{85}' || c == '\U{A0}' || c == '\U{1680}'
    || ('\U{2000}' <= c <= '\U{200A}')
    || c == '\U{2028}' || c == '\U{2029}' || c == '\U{202F}' || c == '\U{205F}' || c == '\U{3000}'
  }

  predicate AllSpace(s: string)
  {
    forall i :: 0 <= i < |s| ==> IsSpace(s[i])
  }

  /** How many whitespace characters `s` starts with. */
  function LeadingSpaces(s: string): (k: nat)
    ensures k <= |s|
  {
    if s != [] && IsSpace(s[0]) then 1 + LeadingSpaces(s[1..]) else 0
  }

  /** The leading run is all whitespace, and whatever follows it is not. */
  lemma {:induction false} LeadingSpacesSpec(s: string)
    ensures var k := LeadingSpaces(s);
            AllSpace(s[..k]) && (k < |s| ==> !IsSpace(s[k]))
  {
    if s != [] && IsSpace(s[0]) {
      LeadingSpacesSpec(s[1..]);
      var k := LeadingSpaces(s);
      assert s[..k] == [s[0]] + s[1..][..k - 1];
    }
  }

  /** `s` without its trailing whitespace. */
  function TrimTrailing(s: string): (r: string)
    ensures |r| <= |s|
  {
    if s != [] && IsSpace(s[|s| - 1]) then TrimTrailing(s[..|s| - 1]) else s
  }

  /** Trimming keeps a prefix, cuts only whitespace, and leaves no whitespace at the end. */
  lemma {:induction false} TrimTrailingSpec(s: string)
    ensures var r := TrimTrailing(s);
            r == s[..|r|] && AllSpace(s[|r|..]) && (r != [] ==> !IsSpace(r[|r| - 1]))
  {
    if s != [] && IsSpace(s[|s| - 1]) {
      var t := s[..|s| - 1];
      TrimTrailingSpec(t);
      var r := TrimTrailing(t);
      assert t[..|r|] == s[..|r|];
      assert s[|r|..] == t[|r|..] + [s[|s| - 1]];
    }
  }

  /** `str.strip()`: `s` without its leading and its trailing whitespace. */
  function Strip(s: string): (r: string)
    ensures |r| <= |s|
  {
    TrimTrailing(s[LeadingSpaces(s)..])
  }

  /**
   * What `str.strip()` returns is the slice of `s` left after removing all
   * leading and all trailing whitespace: it neither starts nor ends with
   * whitespace, and only whitespace was cut away on either side.
   */
  lemma StripSpec(s: string)
    ensures LeadingSpaces(s) + |Strip(s)| <= |s|
    ensures AllSpace(s[..LeadingSpaces(s)])
    ensures Strip(s) == s[LeadingSpaces(s)..LeadingSpaces(s) + |Strip(s)|]
    ensures AllSpace(s[LeadingSpaces(s) + |Strip(s)|..])
    ensures Strip(s) != [] ==> !IsSpace(Strip(s)[0]) && !IsSpace(Strip(s)[|Strip(s)| - 1])
  {
    LeadingSpacesSpec(s);
    StripSlice(s);
    StripEnd(s);
  }

  /** The stripped text is the part of `s` after its leading whitespace, trimmed at the end. */
  lemma StripSlice(s: string)
    ensures Strip(s) == s[LeadingSpaces(s)..LeadingSpaces(s) + |Strip(s)|]
    ensures Strip(s) != [] ==> !IsSpace(Strip(s)[0])
  {
    var k := LeadingSpaces(s);
    var t := s[k..];
    var r := TrimTrailing(t);
    TrimTrailingSpec(t);
    LeadingSpacesSpec(s);
    assert t[..|r|] == s[k..k + |r|];
    if r != [] {
      assert r[0] == s[k];
    }
  }

  /** Only whitespace follows the stripped text, and it does not end in whitespace. */
  lemma StripEnd(s: string)
    ensures LeadingSpaces(s) + |Strip(s)| <= |s|
    ensures AllSpace(s[LeadingSpaces(s) + |Strip(s)|..])
    ensures Strip(s) != [] ==> !IsSpace(Strip(s)[|Strip(s)| - 1])
  {
    var k := LeadingSpaces(s);
    var t := s[k..];
    var r := TrimTrailing(t);
    TrimTrailingSpec(t);
    assert t[|r|..] == s[k + |r|..];
  }

  /** Stripping is empty exactly for strings of whitespace only. */
  lemma StripEmpty(s: string)
    ensures Strip(s) == [] <==> AllSpace(s)
  {
    var k := LeadingSpaces(s);
    StripSpec(s);
    if Strip(s) == [] {
      assert s == s[..k] + s[k..];
      AllSpaceConcat(s[..k], s[k..]);
    } else {
      assert !IsSpace(s[k]);
    }
  }

  lemma AllSpaceConcat(a: string, b: string)
    requires AllSpace(a) && AllSpace(b)
    ensures AllSpace(a + b)
  {
    forall i | 0 <= i < |a + b| ensures IsSpace((a + b)[i]) {
      if i >= |a| {
        assert (a + b)[i] == b[i - |a|];
      }
    }
  }

  /** How many times `c` occurs in `s`: `s.count(c)`. */
  function Occurrences(s: string, c: char): nat
  {
    if s == [] then 0 else (if s[0] == c then 1 else 0) + Occurrences(s[1..], c)
  }

  /** Fields joined back together with `sep` between them: `sep.join(fs)`. */
  function Join(fs: seq<string>, sep: char): string
    requires |fs| >= 1
  {
    if |fs| == 1 then fs[0] else fs[0] + [sep] + Join(fs[1..], sep)
  }

  /** `s.split(sep)` for a one-character separator: cut at every occurrence of `sep`, keeping empty fields. */
  function Split(s: string, sep: char): (fs: seq<string>)
    ensures |fs| >= 1
  {
    if s == [] then [[]]
    else
      var rest := Split(s[1..], sep);
      if s[0] == sep then [[]] + rest
      else [[s[0]] + rest[0]] + rest[1..]
  }

  /**
   * No field holds the separator, the fields joined with it give back `s`,
   * and there is one more field than there are separators.
   */
  lemma {:induction false} SplitSpec(s: string, sep: char)
    ensures var fs := Split(s, sep);
            && Join(fs, sep) == s
            && (forall i :: 0 <= i < |fs| ==> sep !in fs[i])
            && |fs| == Occurrences(s, sep) + 1
  {
    if s != [] {
      SplitSpec(s[1..], sep);
      var rest := Split(s[1..], sep);
      var fs := Split(s, sep);
      if s[0] == sep {
        assert fs[1..] == rest;
        assert Join(fs, sep) == [] + [sep] + s[1..];
      } else {
        JoinHead(rest, s[0], sep);
        assert fs[0] == [s[0]] + rest[0];
        forall i | 0 <= i < |fs| ensures sep !in fs[i] {
          if i > 0 {
            assert fs[i] == rest[i];
          }
        }
      }
    }
  }

  /** Putting a character in front of the first field puts it in front of the join. */
  lemma JoinHead(fs: seq<string>, c: char, sep: char)
    requires |fs| >= 1
    ensures Join([[c] + fs[0]] + fs[1..], sep) == [c] + Join(fs, sep)
  {
    var gs := [[c] + fs[0]] + fs[1..];
    assert gs[0] == [c] + fs[0];
    if |fs| > 1 {
      assert gs[1..] == fs[1..];
    }
  }

  /** Splitting undoes joining, when no field contains the separator. */
  lemma {:induction false} SplitJoin(fs: seq<string>, sep: char)
    requires |fs| >= 1
    requires forall i :: 0 <= i < |fs| ==> sep !in fs[i]
    ensures Split(Join(fs, sep), sep) == fs
  {
    if |fs| == 1 {
      SplitField(fs[0], sep);
    } else {
      SplitJoin(fs[1..], sep);
      SplitPrefix(fs[0], Join(fs[1..], sep), sep);
    }
  }

  /** A string without the separator is one field. */
  lemma {:induction false} SplitField(f: string, sep: char)
    requires sep !in f
    ensures Split(f, sep) == [f]
  {
    if f != [] {
      SplitField(f[1..], sep);
      assert [f[0]] + f[1..] == f;
    }
  }

  /** A leading field without the separator, then the separator, then the rest. */
  lemma {:induction false} SplitPrefix(f: string, rest: string, sep: char)
    requires sep !in f
    ensures Split(f + [sep] + rest, sep) == [f] + Split(rest, sep)
  {
    var s := f + [sep] + rest;
    if f == [] {
      assert s == [sep] + rest;
      assert s[1..] == rest;
    } else {
      SplitPrefix(f[1..], rest, sep);
      assert s[0] == f[0] && s[0] != sep;
      assert s[1..] == f[1..] + [sep] + rest;
      var tail := Split(s[1..], sep);
      assert tail == [f[1..]] + Split(rest, sep);
      assert [f[0]] + f[1..] == f;
    }
  }
}
