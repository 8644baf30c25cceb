/** The functions of Go's `strings` package that the notifier relies on,
    modelled over Dafny strings (sequences of Unicode code points). */
module GoStrings {
  import opened Wrappers

  /** `p` occurs in `s` starting at position `i`. */
  predicate OccursAt(s: string, p: string, i: int) {
    0 <= i && i + |p| <= |s| && s[i..i + |p|] == p
  }

  lemma OccursAtTail(s: string, p: string)
    requires |s| > 0
    ensures forall j :: 1 <= j ==> (OccursAt(s, p, j) <==> OccursAt(s[1..], p, j - 1))
  {
    forall j | 1 <= j
      ensures OccursAt(s, p, j) <==> OccursAt(s[1..], p, j - 1)
    {
      if j + |p| <= |s| {
        assert s[1..][j - 1..j - 1 + |p|] == s[j..j + |p|];
      }
    }
  }

  /** `strings.Index`: the leftmost position where `p` occurs in `s`, if any. */
  function Index(s: string, p: string): (r: Option<nat>)
    ensures r.Some? ==> OccursAt(s, p, r.value)
    ensures r.Some? ==> forall j :: 0 <= j < r.value ==> !OccursAt(s, p, j)
    ensures r.None? ==> forall j :: !OccursAt(s, p, j)
    decreases |s|
  {
    if |s| < |p| then None
    else if s[..|p|] == p then Some(0)
    else
      OccursAtTail(s, p);
      match Index(s[1..], p)
      case None => None
      case Some(i) => Some(i + 1)
  }

  /** The leftmost occurrence is the only answer `Index` can give. */
  lemma IndexIsLeftmost(s: string, p: string, i: nat)
    requires OccursAt(s, p, i)
    requires forall j :: 0 <= j < i ==> !OccursAt(s, p, j)
    ensures Index(s, p) == Some(i)
  {
  }

  /** An occurrence lying inside `s` is the same in `s` and in `s + t`. */
  lemma OccursAtExtension(s: string, t: string, p: string, j: int)
    requires j + |p| <= |s|
    ensures OccursAt(s + t, p, j) <==> OccursAt(s, p, j)
  {
    if 0 <= j {
      assert (s + t)[j..j + |p|] == s[j..j + |p|];
    }
  }

  /** `strings.Contains`: `p` is a substring of `s` (the empty string is a substring of every string). */
  function Contains(s: string, p: string): (r: bool)
    ensures r <==> exists j :: OccursAt(s, p, j)
    ensures |p| == 0 ==> r
  {
    assert |p| == 0 ==> OccursAt(s, p, 0);
    Index(s, p).Some?
  }

  /** A string without the first character of `p` does not contain `p`. */
  lemma FirstCharAbsent(s: string, p: string)
    requires |p| > 0 && p[0] !in s
    ensures !Contains(s, p)
  {
  }

  /** No occurrence of a non-empty `p` lies inside the part of `s` before its first occurrence. */
  lemma NoneBeforeFirst(s: string, p: string, i: nat)
    requires |p| > 0 && i <= |s|
    requires forall j :: 0 <= j < i ==> !OccursAt(s, p, j)
    ensures !Contains(s[..i], p)
  {
    forall j | OccursAt(s[..i], p, j)
      ensures false
    {
      assert s[..i][j..j + |p|] == s[j..j + |p|];
      assert OccursAt(s, p, j);
    }
  }

  /** `strings.Join`: the parts with `sep` between neighbours. */
  function Join(parts: seq<string>, sep: string): string
  {
    if |parts| == 0 then ""
    else if |parts| == 1 then parts[0]
    else parts[0] + sep + Join(parts[1..], sep)
  }

  /** `strings.Split` with a non-empty separator: the pieces between the
      non-overlapping occurrences of `sep`, found left to right. */
  function Split(s: string, sep: string): (parts: seq<string>)
    requires |sep| > 0
    ensures |parts| >= 1
    ensures Join(parts, sep) == s
    ensures forall k :: 0 <= k < |parts| ==> !Contains(parts[k], sep)
    decreases |s|
  {
    match Index(s, sep)
    case None => [s]
    case Some(i) =>
      NoneBeforeFirst(s, sep, i);
      assert s == s[..i] + sep + s[i + |sep|..];
      [s[..i]] + Split(s[i + |sep|..], sep)
  }

  /** One step of `Split`: the piece before the first separator, then the split of what follows it. */
  lemma SplitAtInto(s: string, sep: string, i: nat, piece: string, rest: string)
    requires |sep| > 0 && Index(s, sep) == Some(i)
    requires s[..i] == piece && s[i + |sep|..] == rest
    ensures Split(s, sep) == [piece] + Split(rest, sep)
  {
  }

  /** `strings.Split` returns the input alone exactly when the separator does not occur in it. */
  lemma SplitSingleIffAbsent(s: string, sep: string)
    requires |sep| > 0
    ensures |Split(s, sep)| == 1 <==> !Contains(s, sep)
  {
    match Index(s, sep)
    case None =>
    case Some(i) =>
      assert |Split(s, sep)| == 1 + |Split(s[i + |sep|..], sep)|;
  }

  /** The last of the joined parts is a suffix of the joined string. */
  lemma {:induction false} JoinEndsWithLast(parts: seq<string>, sep: string)
    requires |parts| >= 1
    ensures |parts[|parts| - 1]| <= |Join(parts, sep)|
    ensures Join(parts, sep)[|Join(parts, sep)| - |parts[|parts| - 1]|..] == parts[|parts| - 1]
    decreases |parts|
  {
    if |parts| > 1 {
      JoinEndsWithLast(parts[1..], sep);
      var tail := Join(parts[1..], sep);
      assert Join(parts, sep) == (parts[0] + sep) + tail;
      assert parts[1..][|parts[1..]| - 1] == parts[|parts| - 1];
    }
  }

  /** A non-empty string whose last character is a one-character `sep` contains `sep`. */
  lemma EndsWithSeparator(t: string, sep: string)
    requires |sep| == 1 && |t| > 0 && t[|t| - 1] == sep[0]
    ensures Contains(t, sep)
  {
    assert t[|t| - 1..|t|] == sep;
    assert OccursAt(t, sep, |t| - 1);
  }

  /** Parts joined into a string that ends in a one-character `sep`, the last of them
      free of `sep`, end in an empty part. */
  lemma LastPartEmpty(parts: seq<string>, sep: string)
    requires |sep| == 1 && |parts| >= 1
    requires |Join(parts, sep)| > 0 && Join(parts, sep)[|Join(parts, sep)| - 1] == sep[0]
    requires !Contains(parts[|parts| - 1], sep)
    ensures parts[|parts| - 1] == ""
  {
    var s := Join(parts, sep);
    var last := parts[|parts| - 1];
    JoinEndsWithLast(parts, sep);
    if |last| > 0 {
      assert s[|s| - |last|..][|last| - 1] == s[|s| - 1];
      EndsWithSeparator(last, sep);
      assert false;
    }
  }

  /** A string ending in a one-character separator splits into pieces the last of which is empty. */
  lemma SplitEndingInSeparator(s: string, sep: string)
    requires |sep| == 1 && |s| > 0 && s[|s| - 1] == sep[0]
    ensures Split(s, sep)[|Split(s, sep)| - 1] == ""
  {
    var parts := Split(s, sep);
    assert !Contains(parts[|parts| - 1], sep);
    LastPartEmpty(parts, sep);
  }

  /** `strings.ReplaceAll` with a non-empty `target`: every non-overlapping
      occurrence, found left to right, replaced by `replacement`. */
  function ReplaceAll(s: string, target: string, replacement: string): (r: string)
    requires |target| > 0
    ensures r == Join(Split(s, target), replacement)
    decreases |s|
  {
    match Index(s, target)
    case None => s
    case Some(i) => s[..i] + replacement + ReplaceAll(s[i + |target|..], target, replacement)
  }

  /** Go's `unicode.IsSpace`, the predicate `strings.TrimSpace` trims by. */
  predicate IsSpace(c: char) {
    || c == ' ' || c == '\t' || c == '\n' || c == '\r' || c == '\U{0B}' || c == '\U{0C}'
    || c == '\U{85}' || c == '\U{A0}' || c == '\U{1680}'
    || ('\U{2000}' <= c <= '\U{200A}')
    || c == '\U{2028}' || c == '\U{2029}' || c == '\U{202F}' || c == '\U{205F}' || c == '\U{3000}'
  }

  predicate AllSpace(s: string) {
    forall i :: 0 <= i < |s| ==> IsSpace(s[i])
  }

  lemma AllSpaceConcat(a: string, b: string)
    requires AllSpace(a) && AllSpace(b)
    ensures AllSpace(a + b)
  {
    forall i | 0 <= i < |a + b|
      ensures IsSpace((a + b)[i])
    {
      if i < |a| {
        assert (a + b)[i] == a[i];
      } else {
        assert (a + b)[i] == b[i - |a|];
      }
    }
  }

  /** `s` without its leading white space. */
  function TrimLeft(s: string): (r: string)
    ensures |r| <= |s| && r == s[|s| - |r|..]
    ensures AllSpace(s[..|s| - |r|])
    ensures r == "" || !IsSpace(r[0])
    decreases |s|
  {
    if |s| > 0 && IsSpace(s[0]) then
      var r := TrimLeft(s[1..]);
      assert s[..|s| - |r|] == [s[0]] + s[1..][..|s[1..]| - |r|];
      AllSpaceConcat([s[0]], s[1..][..|s[1..]| - |r|]);
      r
    else s
  }

  /** `s` without its trailing white space. */
  function TrimRight(s: string): (r: string)
    ensures |r| <= |s| && r == s[..|r|]
    ensures AllSpace(s[|r|..])
    ensures r == "" || !IsSpace(r[|r| - 1])
    decreases |s|
  {
    if |s| > 0 && IsSpace(s[|s| - 1]) then
      var r := TrimRight(s[..|s| - 1]);
      assert s[|r|..] == s[..|s| - 1][|r|..] + [s[|s| - 1]];
      AllSpaceConcat(s[..|s| - 1][|r|..], [s[|s| - 1]]);
      r
    else s
  }

  /** A string is all white space exactly when both sides of any cut are. */
  lemma AllSpaceCut(s: string, k: nat)
    requires k <= |s|
    ensures AllSpace(s) <==> AllSpace(s[..k]) && AllSpace(s[k..])
  {
    if AllSpace(s[..k]) && AllSpace(s[k..]) {
      assert s == s[..k] + s[k..];
      AllSpaceConcat(s[..k], s[k..]);
    }
    if AllSpace(s) {
      assert forall i :: 0 <= i < k ==> s[..k][i] == s[i];
      assert forall i :: 0 <= i < |s| - k ==> s[k..][i] == s[k + i];
    }
  }

  /** Trimming both ends leaves nothing exactly when every character is white space. */
  lemma TrimBothBlank(s: string, left: string, r: string)
    requires left == TrimLeft(s) && r == TrimRight(left)
    ensures r == "" <==> AllSpace(s)
  {
    var k := |s| - |left|;
    AllSpaceCut(s, k);
    assert s[k..] == left;
    if r == "" {
      assert left[|r|..] == left;
    } else {
      assert left[0] == r[0];
    }
  }

  /** `strings.TrimSpace`: `s` without leading and trailing white space. */
  function TrimSpace(s: string): (r: string)
    ensures |r| <= |s|
    ensures r == "" <==> AllSpace(s)
    ensures r == "" || (!IsSpace(r[0]) && !IsSpace(r[|r| - 1]))
  {
    var left := TrimLeft(s);
    var r := TrimRight(left);
    TrimBothBlank(s, left, r);
    assert r != "" ==> r[0] == left[0];
    r
  }

  /** `TrimSpace` cuts white space only: the result is the part of the input
      between an all-white-space prefix and an all-white-space suffix. */
  lemma TrimSpaceIsMiddle(s: string)
    ensures var r := TrimSpace(s);
      exists a :: 0 <= a <= |s| - |r| && r == s[a..a + |r|] && AllSpace(s[..a]) && AllSpace(s[a + |r|..])
  {
    var left := TrimLeft(s);
    var r := TrimRight(left);
    var a := |s| - |left|;
    assert s[a..] == left;
    assert s[a..a + |r|] == r;
    assert s[a + |r|..] == left[|r|..];
  }

  /** A string that neither begins nor ends with white space is left as it is by `TrimSpace`. */
  lemma TrimSpaceOfTrimmed(s: string)
    requires s == "" || (!IsSpace(s[0]) && !IsSpace(s[|s| - 1]))
    ensures TrimSpace(s) == s
  {
    assert TrimLeft(s) == s;
    assert TrimRight(s) == s;
  }

  /** Trimming twice is trimming once. */
  lemma TrimSpaceIdempotent(s: string)
    ensures TrimSpace(TrimSpace(s)) == TrimSpace(s)
  {
    TrimSpaceOfTrimmed(TrimSpace(s));
  }

  /** ASCII case folding of one character. */
  function LowerChar(c: char): char {
    if 'A' <= c <= 'Z' then (c as int + 32) as char else c
  }

  /** `strings.ToLower`, restricted to ASCII letters. */
  function ToLower(s: string): (r: string)
    ensures |r| == |s|
    ensures forall i :: 0 <= i < |s| ==> r[i] == LowerChar(s[i])
  {
    seq(|s|, i requires 0 <= i < |s| => LowerChar(s[i]))
  }

  /** Folding twice is folding once. */
  lemma ToLowerIdempotent(s: string)
    ensures ToLower(ToLower(s)) == ToLower(s)
  {
    assert forall i :: 0 <= i < |s| ==> LowerChar(LowerChar(s[i])) == LowerChar(s[i]);
  }
}
