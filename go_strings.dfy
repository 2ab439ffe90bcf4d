/** The few functions of Go's `strings` package that the status reader uses,
    on strings modelled as sequences of characters (no encoding). */
module GoStrings {

  /** Go's `unicode.IsSpace`: the Latin-1 spaces '\t'..'\r', ' ', U+0085 and
      U+00A0, plus the other characters with the Unicode White_Space
      property. */
  predicate IsSpace(c: char)
  {
    c == ' ' || ('\t' <= c <= '\r') || c == '\U{85}' || c == '\U{A0}' || c == '\U{1680}'
    || ('\U{2000}' <= c <= '\U{200A}') || c == '\U{2028}' || c == '\U{2029}'
    || c == '\U{202F}' || c == '\U{205F}' || c == '\U{3000}'
  }

  /** A string that neither starts nor ends with white space. */
  predicate IsTrimmed(s: string)
  {
    s == [] || (!IsSpace(s[0]) && !IsSpace(s[|s| - 1]))
  }

  /** What TrimSpace returns for a line that survives it: a non-empty string
      with no white space at either end. */
  predicate IsToken(s: string)
  {
    s != [] && IsTrimmed(s)
  }

  /** Removes the leading white space. */
  function TrimLeft(s: string): (r: string)
    ensures |r| <= |s|
    ensures r == [] || !IsSpace(r[0])
  {
    if s != [] && IsSpace(s[0]) then TrimLeft(s[1..]) else s
  }

  /** Removes the trailing white space. */
  function TrimRight(s: string): (r: string)
    ensures |r| <= |s|
    ensures r == [] || !IsSpace(r[|r| - 1])
    ensures r == [] || r[0] == s[0]
  {
    if s != [] && IsSpace(s[|s| - 1]) then
      var r := TrimRight(s[..|s| - 1]);
      assert r != [] ==> s[..|s| - 1][0] == s[0];
      r
    else s
  }

  /** TrimLeft keeps a suffix and drops only white space. */
  lemma {:induction false} TrimLeftSuffix(s: string)
    ensures var r := TrimLeft(s);
            && r == s[|s| - |r|..]
            && forall i :: 0 <= i < |s| - |r| ==> IsSpace(s[i])
    decreases |s|
  {
    if s != [] && IsSpace(s[0]) {
      var t := s[1..];
      TrimLeftSuffix(t);
      var r := TrimLeft(t);
      assert TrimLeft(s) == r;
      assert t[|t| - |r|..] == s[|s| - |r|..];
      forall i | 0 <= i < |s| - |r|
        ensures IsSpace(s[i])
      {
        if i > 0 {
          assert s[i] == t[i - 1];
        }
      }
    }
  }

  /** TrimRight keeps a prefix and drops only white space. */
  lemma {:induction false} TrimRightPrefix(s: string)
    ensures var r := TrimRight(s);
            && r == s[..|r|]
            && forall i :: |r| <= i < |s| ==> IsSpace(s[i])
    decreases |s|
  {
    if s != [] && IsSpace(s[|s| - 1]) {
      var t := s[..|s| - 1];
      TrimRightPrefix(t);
      var r := TrimRight(t);
      assert TrimRight(s) == r;
      assert t[..|r|] == s[..|r|];
      forall i | |r| <= i < |s|
        ensures IsSpace(s[i])
      {
        if i < |s| - 1 {
          assert s[i] == t[i];
        }
      }
    }
  }

  /** `r` is the slice of `s` that starts at `k`, and everything of `s`
      outside that slice is white space. */
  ghost predicate SpaceBounded(s: string, r: string, k: int)
  {
    && 0 <= k <= |s| - |r| && r == s[k..k + |r|]
    && (forall i :: 0 <= i < k ==> IsSpace(s[i]))
    && (forall i :: k + |r| <= i < |s| ==> IsSpace(s[i]))
  }

  /** Go's `strings.TrimSpace`: the slice of `s` left once white space is
      removed from both ends. */
  function TrimSpace(s: string): (r: string)
    ensures IsTrimmed(r)
  {
    TrimRight(TrimLeft(s))
  }

  /** What TrimSpace removes is white space at the two ends and nothing
      else. */
  lemma TrimSpaceBounds(s: string)
    ensures exists k :: SpaceBounded(s, TrimSpace(s), k)
  {
    var l := TrimLeft(s);
    var r := TrimRight(l);
    TrimLeftSuffix(s);
    TrimRightPrefix(l);
    TrimSlice(s, l, r);
    TrimTail(s, l, r);
    assert TrimSpace(s) == r;
    assert SpaceBounded(s, r, |s| - |l|);
  }

  lemma TrimSlice(s: string, l: string, r: string)
    requires |r| <= |l| <= |s| && l == s[|s| - |l|..] && r == l[..|r|]
    ensures r == s[|s| - |l|..|s| - |l| + |r|]
  {
    var k := |s| - |l|;
    var mid := s[k..k + |r|];
    forall i | 0 <= i < |r|
      ensures r[i] == mid[i]
    {
      assert r[i] == l[i] == s[k + i];
    }
  }

  lemma TrimTail(s: string, l: string, r: string)
    requires |r| <= |l| <= |s| && l == s[|s| - |l|..]
    requires forall i :: |r| <= i < |l| ==> IsSpace(l[i])
    ensures forall i :: |s| - |l| + |r| <= i < |s| ==> IsSpace(s[i])
  {
    var k := |s| - |l|;
    forall i | k + |r| <= i < |s|
      ensures IsSpace(s[i])
    {
      assert s[i] == l[i - k];
    }
  }

  /** TrimSpace leaves a trimmed string alone, so it is idempotent. */
  lemma TrimSpaceOfTrimmed(s: string)
    requires IsTrimmed(s)
    ensures TrimSpace(s) == s
  {
    assert TrimLeft(s) == s;
    assert TrimRight(s) == s;
  }

  lemma TrimSpaceIdempotent(s: string)
    ensures TrimSpace(TrimSpace(s)) == TrimSpace(s)
  {
    TrimSpaceOfTrimmed(TrimSpace(s));
  }

  /** TrimSpace drops exactly one leading space in front of a token-bounded string. */
  lemma TrimSpaceOfSpacePrefixed(s: string)
    requires IsToken(s)
    ensures TrimSpace(" " + s) == s
  {
    assert (" " + s)[1..] == s;
    assert TrimLeft(s) == s;
    assert TrimLeft(" " + s) == s;
    assert TrimRight(s) == s;
  }

  /** Go's `strings.HasPrefix`. */
  predicate HasPrefix(s: string, prefix: string)
  {
    |prefix| <= |s| && s[..|prefix|] == prefix
  }

  /** `sub` occurs in `s` at position `j`. */
  predicate OccursAt(s: string, sub: string, j: int)
  {
    0 <= j && j + |sub| <= |s| && s[j..j + |sub|] == sub
  }

  /** Go's `strings.Index` for a non-empty needle: a position at which
      `sub` fits in `s`, or -1; IndexFirstOccurrence says which one. */
  function Index(s: string, sub: string): (r: int)
    requires sub != []
    ensures r == -1 || 0 <= r <= |s| - |sub|
    decreases |s|
  {
    if |s| < |sub| then -1
    else if HasPrefix(s, sub) then 0
    else
      var r := Index(s[1..], sub);
      if r < 0 then -1 else r + 1
  }

  /** Index finds the first occurrence of `sub`, and -1 means that `sub`
      occurs nowhere. */
  lemma {:induction false} IndexFirstOccurrence(s: string, sub: string)
    requires sub != []
    ensures var r := Index(s, sub);
            && (r >= 0 ==> OccursAt(s, sub, r))
            && (r >= 0 ==> forall j :: 0 <= j < r ==> !OccursAt(s, sub, j))
            && (r == -1 <==> forall j :: !OccursAt(s, sub, j))
    decreases |s|
  {
    if |s| < |sub| {
      assert forall j :: !OccursAt(s, sub, j);
    } else if HasPrefix(s, sub) {
      assert OccursAt(s, sub, 0) by { assert s[0..|sub|] == s[..|sub|]; }
    } else {
      IndexFirstOccurrence(s[1..], sub);
      OccursAtShift(s, sub);
    }
  }

  /** Past the first character, `sub` occurs in `s` exactly where it occurs
      in `s[1..]`, one position later. */
  lemma OccursAtShift(s: string, sub: string)
    requires s != [] && !HasPrefix(s, sub)
    ensures forall j :: OccursAt(s, sub, j) <==> j >= 1 && OccursAt(s[1..], sub, j - 1)
  {
    assert !OccursAt(s, sub, 0) by {
      if |sub| <= |s| {
        assert s[0..|sub|] == s[..|sub|];
      }
    }
    forall j | j >= 1 && j + |sub| <= |s|
      ensures OccursAt(s, sub, j) == OccursAt(s[1..], sub, j - 1)
    {
      var shifted, here := s[1..][j - 1..j - 1 + |sub|], s[j..j + |sub|];
      forall t | 0 <= t < |sub| ensures shifted[t] == here[t] {
        assert s[1..][j - 1 + t] == s[j + t];
      }
      assert shifted == here;
    }
  }

  /** Go's `strings.Replace(s, target, replacement, 1)` for a non-empty target: the first
      occurrence of `target` is replaced, the rest of `s` is kept. */
  function ReplaceFirst(s: string, target: string, replacement: string): (r: string)
    requires target != []
  {
    var i := Index(s, target);
    if i < 0 then s else s[..i] + replacement + s[i + |target|..]
  }

  /** Replacing a prefix by nothing strips it. */
  lemma ReplaceFirstOfPrefix(s: string, target: string)
    requires target != [] && HasPrefix(s, target)
    ensures ReplaceFirst(s, target, "") == s[|target|..]
  {
  }

  /** Go's `strings.Join`. */
  function Join(parts: seq<string>, sep: string): string
    decreases |parts|
  {
    if |parts| == 0 then ""
    else if |parts| == 1 then parts[0]
    else parts[0] + sep + Join(parts[1..], sep)
  }

  lemma {:induction false} JoinSnoc(parts: seq<string>, last: string, sep: string)
    requires parts != []
    ensures Join(parts + [last], sep) == Join(parts, sep) + sep + last
    decreases |parts|
  {
    if |parts| == 1 {
      assert parts + [last] == [parts[0], last];
      assert [parts[0], last][1..] == [last];
    } else {
      assert (parts + [last])[1..] == parts[1..] + [last];
      JoinSnoc(parts[1..], last, sep);
    }
  }

  /** Joining tokens keeps the first token's first and the last token's last
      character at the ends, so the joined string is trimmed. */
  lemma {:induction false} JoinOfTokensIsToken(parts: seq<string>, sep: string)
    requires parts != []
    requires forall i :: 0 <= i < |parts| ==> IsToken(parts[i])
    ensures IsToken(Join(parts, sep))
    decreases |parts|
  {
    if |parts| > 1 {
      JoinOfTokensIsToken(parts[1..], sep);
      var tail := Join(parts[1..], sep);
      assert Join(parts, sep) == parts[0] + sep + tail;
      assert (parts[0] + sep + tail)[0] == parts[0][0];
      assert (parts[0] + sep + tail)[|parts[0] + sep + tail| - 1] == tail[|tail| - 1];
    }
  }

  /** What a Go loop `s = fmt.Sprintf("%s %s", s, part)` builds from "":
      every part preceded by one space. */
  function SpacePrefixed(parts: seq<string>): string
  {
    if parts == [] then "" else SpacePrefixed(parts[..|parts| - 1]) + " " + parts[|parts| - 1]
  }

  lemma {:induction false} SpacePrefixedIsJoin(parts: seq<string>)
    requires parts != []
    ensures SpacePrefixed(parts) == " " + Join(parts, " ")
    decreases |parts|
  {
    var init := parts[..|parts| - 1];
    var last := parts[|parts| - 1];
    assert init + [last] == parts;
    if init == [] {
      assert SpacePrefixed(parts) == SpacePrefixed(init) + " " + last;
    } else {
      var j := Join(init, " ");
      SpacePrefixedIsJoin(init);
      JoinSnoc(init, last, " ");
      assert SpacePrefixed(parts) == (" " + j) + " " + last;
      assert (" " + j) + " " + last == " " + (j + " " + last);
    }
  }

  /** Space-joining tokens and trimming the result gives their plain
      space-join: the leading space the loop adds is all TrimSpace removes. */
  lemma TrimmedSpacePrefixed(parts: seq<string>)
    requires forall i :: 0 <= i < |parts| ==> IsToken(parts[i])
    ensures TrimSpace(SpacePrefixed(parts)) == Join(parts, " ")
  {
    if parts != [] {
      SpacePrefixedIsJoin(parts);
      JoinOfTokensIsToken(parts, " ");
      TrimSpaceOfSpacePrefixed(Join(parts, " "));
    }
  }

  /** Go's `strings.Split` for a non-empty separator: the pieces between the
      leftmost non-overlapping occurrences of `sep`. */
  function Split(s: string, sep: string): (r: seq<string>)
    requires sep != []
    ensures |r| >= 1
    decreases |s|
  {
    if |s| < |sep| then [s]
    else if s[..|sep|] == sep then [""] + Split(s[|sep|..], sep)
    else
      var rest := Split(s[1..], sep);
      [[s[0]] + rest[0]] + rest[1..]
  }

  /** Joining the pieces with the separator gives back the input. */
  lemma {:induction false} JoinSplit(s: string, sep: string)
    requires sep != []
    ensures Join(Split(s, sep), sep) == s
    decreases |s|
  {
    if |s| < |sep| {
    } else if s[..|sep|] == sep {
      var rest := Split(s[|sep|..], sep);
      JoinSplit(s[|sep|..], sep);
      JoinCons("", rest, sep);
      assert s == sep + s[|sep|..];
    } else {
      var rest := Split(s[1..], sep);
      JoinSplit(s[1..], sep);
      JoinExtendFirst(s[0], rest, sep);
      assert s == [s[0]] + s[1..];
    }
  }

  lemma JoinCons(first: string, rest: seq<string>, sep: string)
    requires rest != []
    ensures Join([first] + rest, sep) == first + sep + Join(rest, sep)
  {
    assert ([first] + rest)[1..] == rest;
  }

  /** Putting a character in front of the first part puts it in front of
      the joined string. */
  lemma JoinExtendFirst(c: char, parts: seq<string>, sep: string)
    requires parts != []
    ensures Join([[c] + parts[0]] + parts[1..], sep) == [c] + Join(parts, sep)
  {
    var r := [[c] + parts[0]] + parts[1..];
    assert r[1..] == parts[1..];
    if |parts| > 1 {
      var tail := Join(parts[1..], sep);
      assert Join(r, sep) == ([c] + parts[0]) + sep + tail;
      assert Join(parts, sep) == parts[0] + sep + tail;
      assert ([c] + parts[0]) + sep + tail == [c] + (parts[0] + sep + tail);
    }
  }

  /** With a one-character separator no piece contains that character. */
  lemma {:induction false} SplitPiecesAvoidSeparator(s: string, c: char)
    ensures forall i :: 0 <= i < |Split(s, [c])| ==> c !in Split(s, [c])[i]
    decreases |s|
  {
    if |s| >= 1 {
      SplitPiecesAvoidSeparator(s[1..], c);
      if s[..1] != [c] {
        assert s[0] != c;
      }
    }
  }

  /** A one-character split of `a + [c] + b`, where `a` lacks `c`, cuts first
      after `a`. */
  lemma {:induction false} SplitAtFirst(a: string, c: char, b: string)
    requires c !in a
    ensures Split(a + [c] + b, [c]) == [a] + Split(b, [c])
    decreases |a|
  {
    var s := a + [c] + b;
    if a == [] {
      assert s[..1] == [c] && s[1..] == b;
    } else {
      assert s[0] == a[0] && s[..1] != [c];
      assert s[1..] == a[1..] + [c] + b;
      SplitAtFirst(a[1..], c, b);
      assert [a[0]] + a[1..] == a;
    }
  }

  /** A string holding the one-character separator splits into at least two pieces. */
  lemma SplitOfContained(s: string, c: char)
    requires c in s
    ensures |Split(s, [c])| >= 2
  {
    var i :| 0 <= i < |s| && s[i] == c;
    var k := FirstIndexOf(s, c, i);
    assert s == s[..k] + [c] + s[k + 1..];
    SplitAtFirst(s[..k], c, s[k + 1..]);
  }

  /** The position of the first `c` in `s`, given that `c` occurs at `i`. */
  lemma FirstIndexOf(s: string, c: char, i: nat) returns (k: nat)
    requires i < |s| && s[i] == c
    ensures k <= i && s[k] == c && c !in s[..k]
  {
    k := 0;
    while s[k] != c
      invariant k <= i && c !in s[..k]
      decreases i - k
    {
      assert s[..k + 1] == s[..k] + [s[k]];
      k := k + 1;
    }
  }

  /** A string without the separator character splits into itself. */
  lemma {:induction false} SplitWithoutSeparator(s: string, c: char)
    requires c !in s
    ensures Split(s, [c]) == [s]
    decreases |s|
  {
    if |s| >= 1 {
      assert s[0] in s && s[..1] != [c];
      SplitWithoutSeparator(s[1..], c);
      assert [s[0]] + s[1..] == s;
    }
  }
}
