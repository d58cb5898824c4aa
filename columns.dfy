/** Column names: the canonical form of a header (`str.strip().lower()
    .replace(' ', '_')`, ASCII only) and the check for the six required fields. */
module Columns {
  import opened Seqs

  /** Python's `str.isspace` on ASCII: space, `\t`, `\n`, `\v`, `\f`, `\r` and
      the four separators 0x1C-0x1F. */
  predicate IsSpace(c: char)
  {
    var n := c as int;
    n == 32 || 9 <= n <= 13 || 28 <= n <= 31
  }

  predicate IsUpper(c: char)
  {
    'A' <= c <= 'Z'
  }

  /** Every character of `s` at a position in `[lo, hi)` is whitespace. */
  ghost predicate SpaceBetween(s: string, lo: nat, hi: nat)
    requires lo <= hi <= |s|
  {
    forall k :: lo <= k < hi ==> IsSpace(s[k])
  }

  /** The number of whitespace characters `s` starts with. */
  function LeadingSpaces(s: string): (n: nat)
    ensures n <= |s| && SpaceBetween(s, 0, n)
    ensures n < |s| ==> !IsSpace(s[n])
  {
    if s != [] && IsSpace(s[0]) then 1 + LeadingSpaces(s[1..]) else 0
  }

  /** The number of whitespace characters `s` ends with. */
  function TrailingSpaces(s: string): (n: nat)
    ensures n <= |s| && SpaceBetween(s, |s| - n, |s|)
    ensures n < |s| ==> !IsSpace(s[|s| - 1 - n])
  {
    if s != [] && IsSpace(s[|s| - 1]) then 1 + TrailingSpaces(s[..|s| - 1]) else 0
  }

  /** `str.strip()`: the longest whitespace prefix and suffix are removed. */
  function Strip(s: string): (r: string)
    ensures r == [] || (!IsSpace(r[0]) && !IsSpace(r[|r| - 1]))
    ensures var i := LeadingSpaces(s);
      && i + |r| <= |s| && s[i..i + |r|] == r
      && SpaceBetween(s, 0, i) && SpaceBetween(s, i + |r|, |s|)
  {
    var i := LeadingSpaces(s);
    if i == |s| then []
    else
      var t := TrailingSpaces(s);
      assert i + t < |s| by {
        assert !IsSpace(s[i]);
      }
      s[i..|s| - t]
  }

  function LowerChar(c: char): (d: char)
  {
    if IsUpper(c) then (c as int + 32) as char else c
  }

  /** `str.lower()` on ASCII letters. */
  function Lower(s: string): (r: string)
    ensures |r| == |s|
    ensures forall k :: 0 <= k < |s| ==> r[k] == LowerChar(s[k])
  {
    if s == [] then [] else [LowerChar(s[0])] + Lower(s[1..])
  }

  /** `str.replace(' ', '_')`. */
  function ReplaceSpaces(s: string): (r: string)
    ensures |r| == |s|
    ensures forall k :: 0 <= k < |s| ==> r[k] == if s[k] == ' ' then '_' else s[k]
  {
    if s == [] then [] else [if s[0] == ' ' then '_' else s[0]] + ReplaceSpaces(s[1..])
  }

  /** The canonical form of one header (app.py line 20). */
  function Normalize(h: string): string
  {
    ReplaceSpaces(Lower(Strip(h)))
  }

  function NormalizeAll(header: seq<string>): (cols: seq<string>)
    ensures |cols| == |header|
    ensures forall k :: 0 <= k < |header| ==> cols[k] == Normalize(header[k])
  {
    seq(|header|, k requires 0 <= k < |header| => Normalize(header[k]))
  }

  /** A canonical name has no surrounding whitespace, no space and no upper-case letter. */
  ghost predicate Canonical(n: string)
  {
    && (n == [] || (!IsSpace(n[0]) && !IsSpace(n[|n| - 1])))
    && ' ' !in n
    && forall k :: 0 <= k < |n| ==> !IsUpper(n[k])
  }

  lemma NormalizeIsCanonical(h: string)
    ensures Canonical(Normalize(h))
  {
    var n := Normalize(h);
    forall k | 0 <= k < |n|
      ensures n[k] != ' ' && !IsUpper(n[k])
    {
    }
  }

  lemma StripCanonical(n: string)
    requires n == [] || (!IsSpace(n[0]) && !IsSpace(n[|n| - 1]))
    ensures Strip(n) == n
  {
    assert LeadingSpaces(n) == 0;
    assert n[0..] == n;
    assert TrailingSpaces(n) == 0;
  }

  /** A name without upper-case letters is its own lower-case form. */
  lemma LowerKeepsLower(n: string)
    requires forall k :: 0 <= k < |n| ==> !IsUpper(n[k])
    ensures Lower(n) == n
  {
    var l := Lower(n);
    forall k | 0 <= k < |n|
      ensures l[k] == n[k]
    {
      assert l[k] == LowerChar(n[k]);
    }
  }

  /** A name without spaces is left alone by the replacement. */
  lemma ReplaceKeepsSpaceless(n: string)
    requires ' ' !in n
    ensures ReplaceSpaces(n) == n
  {
    var r := ReplaceSpaces(n);
    forall k | 0 <= k < |n|
      ensures r[k] == n[k]
    {
      assert n[k] in n;
    }
  }

  /** Normalising a name twice is the same as normalising it once, so a header
      that is already canonical is left alone. */
  lemma NormalizeIdempotent(h: string)
    ensures Normalize(Normalize(h)) == Normalize(h)
  {
    var n := Normalize(h);
    NormalizeIsCanonical(h);
    StripCanonical(n);
    LowerKeepsLower(n);
    ReplaceKeepsSpaceless(n);
  }

  /** The fields the dashboard needs, in the order the error message lists them. */
  const RequiredFields: seq<string> :=
    ["state_of_residence", "month", "month_code", "year_code", "sex_of_infant", "births"]

  /** The required names absent from `cols`, in the order of `RequiredFields`
      (app.py line 23). */
  function MissingFields(cols: seq<string>): (missing: seq<string>)
    ensures IsSubseq(missing, RequiredFields)
    ensures forall f :: f in missing <==> f in RequiredFields && f !in cols
    ensures missing == [] <==> forall f :: f in RequiredFields ==> f in cols
  {
    Filter(RequiredFields, f => f !in cols)
  }

  /** The position of the first column called `name` (pandas selects by label). */
  function IndexOf(cols: seq<string>, name: string): (i: nat)
    requires name in cols
    ensures i < |cols| && cols[i] == name && name !in cols[..i]
  {
    if cols[0] == name then 0 else 1 + IndexOf(cols[1..], name)
  }
}
