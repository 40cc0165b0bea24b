/**
 * The `java.lang.String` operations the core uses: `startsWith`, `trim`,
 * `split(",")` and `hashCode`.
 */
module JavaStrings {
  import opened JavaLang

  predicate StartsWith(s: string, prefix: string) {
    |prefix| <= |s| && s[..|prefix|] == prefix
  }

  /** `trim()` removes every leading and trailing character whose code is at most U+0020. */
  predicate IsTrimmed(c: char) {
    c <= ' '
  }

  function TrimStart(s: string): (r: string)
    ensures |r| <= |s| && r == s[|s| - |r|..]
    ensures r == [] || !IsTrimmed(r[0])
    ensures forall i :: 0 <= i < |s| - |r| ==> IsTrimmed(s[i])
  {
    if |s| > 0 && IsTrimmed(s[0]) then TrimStart(s[1..]) else s
  }

  function TrimEnd(s: string): (r: string)
    ensures |r| <= |s| && r == s[..|r|]
    ensures r == [] || !IsTrimmed(r[|r| - 1])
    ensures forall i :: |r| <= i < |s| ==> IsTrimmed(s[i])
  {
    if |s| > 0 && IsTrimmed(s[|s| - 1]) then TrimEnd(s[..|s| - 1]) else s
  }

  /** `r` sits in `s` at offset `k` and everything around it is trimmed characters. */
  predicate TrimmedAt(s: string, r: string, k: int) {
    && 0 <= k <= |s| - |r|
    && s[k..k + |r|] == r
    && (forall i :: 0 <= i < k ==> IsTrimmed(s[i]))
    && (forall i :: k + |r| <= i < |s| ==> IsTrimmed(s[i]))
  }

  /** `String.trim()`: the substring left after removing trimmed characters at both ends. */
  function Trim(s: string): (r: string)
    ensures exists k :: TrimmedAt(s, r, k)
    ensures r == [] || (!IsTrimmed(r[0]) && !IsTrimmed(r[|r| - 1]))
  {
    var t := TrimStart(s);
    var r := TrimEnd(t);
    var k := |s| - |t|;
    assert t[..|r|] == s[k..k + |r|];
    assert forall i :: k + |r| <= i < |s| ==> s[i] == t[i - k];
    assert TrimmedAt(s, r, k);
    r
  }

  /** The comma-separated fields of `s`, empty ones included: always one more than the commas. */
  function Fields(s: string): (r: seq<string>)
    ensures |r| >= 1
  {
    if s == [] then [""]
    else if s[0] == ',' then [""] + Fields(s[1..])
    else var t := Fields(s[1..]); [[s[0]] + t[0]] + t[1..]
  }

  function DropTrailingEmpty(fields: seq<string>): (r: seq<string>)
    ensures |r| <= |fields| && r == fields[..|r|]
  {
    if |fields| > 0 && fields[|fields| - 1] == "" then DropTrailingEmpty(fields[..|fields| - 1]) else fields
  }

  /** `s.split(",")`: the fields with trailing empty strings removed; an input without any
      comma is returned whole, which matters only for the empty string. */
  function SplitOnComma(s: string): seq<string> {
    if s == [] then [""] else DropTrailingEmpty(Fields(s))
  }

  /** What precedes the first comma of `s` (all of `s` when it has none). */
  function BeforeFirstComma(s: string): (r: string)
    ensures |r| <= |s| && r == s[..|r|]
    ensures forall i :: 0 <= i < |r| ==> s[i] != ','
    ensures |r| < |s| ==> s[|r|] == ','
  {
    if s == [] || s[0] == ',' then "" else [s[0]] + BeforeFirstComma(s[1..])
  }

  predicate OnlyCommas(s: string) {
    forall i :: 0 <= i < |s| ==> s[i] == ','
  }

  lemma {:induction false} FirstFieldIsBeforeFirstComma(s: string)
    ensures Fields(s)[0] == BeforeFirstComma(s)
  {
    if s != [] && s[0] != ',' {
      FirstFieldIsBeforeFirstComma(s[1..]);
    }
  }

  /** Every field is empty exactly when the string is made of commas only. */
  lemma {:induction false} FieldsAllEmptyIffOnlyCommas(s: string)
    ensures (forall i :: 0 <= i < |Fields(s)| ==> Fields(s)[i] == "") <==> OnlyCommas(s)
  {
    if s == [] {
    } else if s[0] == ',' {
      FieldsAllEmptyIffOnlyCommas(s[1..]);
      var t := Fields(s[1..]);
      assert Fields(s) == [""] + t;
      if OnlyCommas(s) {
        assert OnlyCommas(s[1..]) by {
          forall i | 0 <= i < |s[1..]| ensures s[1..][i] == ',' { assert s[1..][i] == s[i + 1]; }
        }
      } else {
        var i :| 0 <= i < |s| && s[i] != ',';
        assert s[1..][i - 1] != ',';
        var j :| 0 <= j < |t| && t[j] != "";
        assert Fields(s)[j + 1] == t[j];
      }
    } else {
      var t := Fields(s[1..]);
      assert Fields(s)[0] == [s[0]] + t[0];
      assert !OnlyCommas(s);
    }
  }

  lemma {:induction false} DropTrailingEmptyEmptyIffAllEmpty(fields: seq<string>)
    ensures DropTrailingEmpty(fields) == [] <==> forall i :: 0 <= i < |fields| ==> fields[i] == ""
  {
    if |fields| > 0 && fields[|fields| - 1] == "" {
      var f := fields[..|fields| - 1];
      DropTrailingEmptyEmptyIffAllEmpty(f);
      if forall i :: 0 <= i < |f| ==> f[i] == "" {
        forall i | 0 <= i < |fields| ensures fields[i] == "" {
          if i < |f| { assert f[i] == fields[i]; }
        }
      }
    }
  }

  /** For a non-empty header, `split(",")` has an element 0 exactly when the header holds a
      character other than a comma, and that element is what precedes the first comma. */
  lemma SplitOnCommaHead(s: string)
    requires s != []
    ensures |SplitOnComma(s)| == 0 <==> OnlyCommas(s)
    ensures |SplitOnComma(s)| > 0 ==> SplitOnComma(s)[0] == BeforeFirstComma(s)
  {
    FieldsAllEmptyIffOnlyCommas(s);
    DropTrailingEmptyEmptyIffAllEmpty(Fields(s));
    FirstFieldIsBeforeFirstComma(s);
  }

  /** `String.hashCode()`: h = 31 * h + c over the characters, in `int` arithmetic. */
  function StringHashCode(s: string): (h: int)
    ensures IsInt32(h)
  {
    if s == [] then 0 else WrapInt32(31 * StringHashCode(s[..|s| - 1]) + s[|s| - 1] as int)
  }
}
