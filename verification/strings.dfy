/** The string operations the form's validation uses: `replace` with a global
    character-class pattern (Keep), `trim`, and the position of the first
    occurrence of a character (where the email address is divided). */
module Strings {
  import opened Chars

  /** Every character of `s` is in class `k`. */
  predicate AllIn(s: string, k: CharClass) {
    forall i :: 0 <= i < |s| ==> In(k, s[i])
  }

  /** `s.replace(/[^k]/g, '')`: delete every character outside class `k`. */
  function Keep(s: string, k: CharClass): (r: string)
    ensures AllIn(r, k)
    ensures |r| <= |s|
  {
    if |s| == 0 then []
    else (if In(k, s[0]) then [s[0]] else []) + Keep(s[1..], k)
  }

  /** Keep holds every character of `s` that is in `k`, as often as `s`
      holds it, and nothing else. */
  lemma {:induction false} KeepCounts(s: string, k: CharClass)
    ensures forall c {:trigger multiset(Keep(s, k))[c]} ::
              multiset(Keep(s, k))[c] == if In(k, c) then multiset(s)[c] else 0
    decreases |s|
  {
    if |s| > 0 {
      assert s == [s[0]] + s[1..];
      KeepCounts(s[1..], k);
    }
  }

  /** Keep works character by character and preserves order: it distributes
      over concatenation. */
  lemma {:induction false} KeepAppend(a: string, b: string, k: CharClass)
    ensures Keep(a + b, k) == Keep(a, k) + Keep(b, k)
    decreases |a|
  {
    if |a| == 0 {
      assert a + b == b;
    } else {
      var head := if In(k, a[0]) then [a[0]] else [];
      assert (a + b)[0] == a[0];
      assert (a + b)[1..] == a[1..] + b;
      KeepAppend(a[1..], b, k);
      assert Keep(a + b, k) == head + (Keep(a[1..], k) + Keep(b, k));
      assert Keep(a, k) == head + Keep(a[1..], k);
    }
  }

  /** Keep leaves a string alone exactly when it has nothing to delete. */
  lemma {:induction false} KeepIdentity(s: string, k: CharClass)
    ensures Keep(s, k) == s <==> AllIn(s, k)
    decreases |s|
  {
    if |s| > 0 {
      KeepIdentity(s[1..], k);
      if !In(k, s[0]) {
        assert |Keep(s, k)| < |s| by {
          assert Keep(s, k) == Keep(s[1..], k);
        }
      }
      if AllIn(s, k) {
        assert AllIn(s[1..], k);
      }
    }
  }

  /** Cleaning twice is cleaning once. */
  lemma KeepIdempotent(s: string, k: CharClass)
    ensures Keep(Keep(s, k), k) == Keep(s, k)
  {
    KeepIdentity(Keep(s, k), k);
  }

  /** `trimStart`: drop leading white space. */
  function TrimStart(s: string): string {
    if |s| > 0 && IsWhitespace(s[0]) then TrimStart(s[1..]) else s
  }

  /** `trimEnd`: drop trailing white space. */
  function TrimEnd(s: string): string {
    if |s| > 0 && IsWhitespace(s[|s| - 1]) then TrimEnd(s[..|s| - 1]) else s
  }

  /** TrimStart leaves a suffix of `s`, removes white space only, and stops
      at the first character that is not white space. */
  lemma {:induction false} TrimStartSpec(s: string)
    ensures var r := TrimStart(s);
      && |r| <= |s| && r == s[|s| - |r|..]
      && AllIn(s[..|s| - |r|], Whitespace)
      && (|r| > 0 ==> !IsWhitespace(r[0]))
    decreases |s|
  {
    if |s| > 0 && IsWhitespace(s[0]) {
      TrimStartSpec(s[1..]);
      var r := TrimStart(s[1..]);
      assert s[1..][|s| - 1 - |r|..] == s[|s| - |r|..];
      assert forall m :: 1 <= m < |s| - |r| ==> s[1..][..|s| - 1 - |r|][m - 1] == s[m];
    }
  }

  /** TrimEnd leaves a prefix of `s`, removes white space only, and stops at
      the last character that is not white space. */
  lemma {:induction false} TrimEndSpec(s: string)
    ensures var r := TrimEnd(s);
      && |r| <= |s| && r == s[..|r|]
      && AllIn(s[|r|..], Whitespace)
      && (|r| > 0 ==> !IsWhitespace(r[|r| - 1]))
    decreases |s|
  {
    if |s| > 0 && IsWhitespace(s[|s| - 1]) {
      var s' := s[..|s| - 1];
      TrimEndSpec(s');
      var r := TrimEnd(s');
      assert s'[..|r|] == s[..|r|];
      assert forall m :: |r| <= m < |s| - 1 ==> s'[|r|..][m - |r|] == s[m];
    }
  }

  /** `String.prototype.trim`. */
  function Trim(s: string): string {
    TrimEnd(TrimStart(s))
  }

  /** `r` is what is left of `s` once its leading and trailing white space is
      removed: a slice of `s` with only white space around it and no white
      space at either of its ends. */
  ghost predicate IsTrimOf(s: string, r: string) {
    exists i :: 0 <= i <= |s| - |r|
      && r == s[i..i + |r|]
      && AllIn(s[..i], Whitespace)
      && AllIn(s[i + |r|..], Whitespace)
      && (|r| > 0 ==> !IsWhitespace(r[0]) && !IsWhitespace(r[|r| - 1]))
  }

  lemma {:induction false} TrimStartAt(s: string, i: nat)
    requires i < |s| && AllIn(s[..i], Whitespace) && !IsWhitespace(s[i])
    ensures TrimStart(s) == s[i..]
    decreases i
  {
    if i > 0 {
      assert s[..i][0] == s[0];
      assert s[1..][..i - 1] == s[..i][1..];
      TrimStartAt(s[1..], i - 1);
    }
  }

  lemma {:induction false} TrimEndAt(s: string, j: nat)
    requires 0 < j <= |s| && AllIn(s[j..], Whitespace) && !IsWhitespace(s[j - 1])
    ensures TrimEnd(s) == s[..j]
    decreases |s| - j
  {
    if j < |s| {
      assert s[j..][|s| - 1 - j] == s[|s| - 1];
      var s' := s[..|s| - 1];
      assert s'[j..] == s[j..][..|s| - 1 - j];
      TrimEndAt(s', j);
    }
  }

  /** Trim meets its characterisation. */
  lemma TrimIsTrimOf(s: string)
    ensures IsTrimOf(s, Trim(s))
  {
    var a := TrimStart(s);
    var t := TrimEnd(a);
    TrimStartSpec(s);
    TrimEndSpec(a);
    var i := |s| - |a|;
    assert t == s[i..i + |t|];
    assert s[i + |t|..] == a[|t|..];
    assert |t| > 0 ==> t[0] == a[0];
  }

  /** Nothing but Trim meets the characterisation. */
  lemma TrimOfUnique(s: string, r: string)
    requires IsTrimOf(s, r)
    ensures r == Trim(s)
  {
    var k :| 0 <= k <= |s| - |r|
      && r == s[k..k + |r|]
      && AllIn(s[..k], Whitespace)
      && AllIn(s[k + |r|..], Whitespace)
      && (|r| > 0 ==> !IsWhitespace(r[0]) && !IsWhitespace(r[|r| - 1]));
    TrimOfUniqueAt(s, r, k);
  }

  lemma TrimOfUniqueAt(s: string, r: string, k: nat)
    requires k <= |s| - |r| && r == s[k..k + |r|]
    requires AllIn(s[..k], Whitespace) && AllIn(s[k + |r|..], Whitespace)
    requires |r| > 0 ==> !IsWhitespace(r[0]) && !IsWhitespace(r[|r| - 1])
    ensures r == Trim(s)
  {
    if |r| == 0 {
      WhitespaceAround(s, k);
      TrimAllWhitespace(s);
    } else {
      TrimSliceAt(s, k, k + |r|);
    }
  }

  lemma WhitespaceAround(s: string, k: nat)
    requires k <= |s| && AllIn(s[..k], Whitespace) && AllIn(s[k..], Whitespace)
    ensures AllIn(s, Whitespace)
  {
    forall m | 0 <= m < |s|
      ensures IsWhitespace(s[m])
    {
      if m < k {
        assert s[..k][m] == s[m];
      } else {
        assert s[k..][m - k] == s[m];
      }
    }
  }

  lemma TrimSliceAt(s: string, i: nat, j: nat)
    requires i < j <= |s|
    requires AllIn(s[..i], Whitespace) && AllIn(s[j..], Whitespace)
    requires !IsWhitespace(s[i]) && !IsWhitespace(s[j - 1])
    ensures Trim(s) == s[i..j]
  {
    TrimStartAt(s, i);
    var a := s[i..];
    assert a[j - i..] == s[j..];
    assert a[j - i - 1] == s[j - 1];
    TrimEndAt(a, j - i);
  }

  lemma TrimAllWhitespace(s: string)
    requires AllIn(s, Whitespace)
    ensures Trim(s) == []
  {
    TrimStartSpec(s);
  }

  /** A trimmed value is empty exactly when the text was white space only. */
  lemma TrimEmptyIff(s: string)
    ensures Trim(s) == [] <==> AllIn(s, Whitespace)
  {
    if AllIn(s, Whitespace) {
      TrimAllWhitespace(s);
    } else {
      TrimIsTrimOf(s);
      if Trim(s) == [] {
        var k :| 0 <= k <= |s| && AllIn(s[..k], Whitespace) && AllIn(s[k..], Whitespace);
        WhitespaceAround(s, k);
      }
    }
  }

  /** A string with no white space at its ends is its own trim. */
  lemma TrimNoOp(s: string)
    requires |s| > 0 ==> !IsWhitespace(s[0]) && !IsWhitespace(s[|s| - 1])
    ensures Trim(s) == s
  {
    assert s[..0] == [] && s[|s|..] == [];
    assert IsTrimOf(s, s);
    TrimOfUnique(s, s);
  }

  /** Trimming removes characters but adds none: a class every character of
      `s` is in holds for the trimmed text too. */
  lemma AllInTrim(s: string, k: CharClass)
    requires AllIn(s, k)
    ensures AllIn(Trim(s), k)
  {
    var a := TrimStart(s);
    TrimStartSpec(s);
    assert forall m :: 0 <= m < |a| ==> a[m] == s[|s| - |a| + m];
    var t := TrimEnd(a);
    TrimEndSpec(a);
    assert forall m :: 0 <= m < |t| ==> t[m] == a[m];
  }

  /** Trimming twice is trimming once. */
  lemma TrimIdempotent(s: string)
    ensures Trim(Trim(s)) == Trim(s)
  {
    var a := TrimStart(s);
    TrimStartSpec(s);
    TrimEndSpec(a);
    var t := Trim(s);
    assert |t| > 0 ==> t[0] == a[0];
    TrimNoOp(t);
  }

  /** Index of the first occurrence of `c` in `s`. */
  function FirstIndex(s: string, c: char): (i: nat)
    requires c in s
    ensures i < |s| && s[i] == c && c !in s[..i]
  {
    if s[0] == c then 0
    else
      assert s == [s[0]] + s[1..];
      1 + FirstIndex(s[1..], c)
  }

  lemma {:induction false} FirstIndexUnique(s: string, c: char, i: nat)
    requires i < |s| && s[i] == c && c !in s[..i]
    ensures FirstIndex(s, c) == i
    decreases i
  {
    if i > 0 {
      assert s[..i][0] == s[0];
      assert s[1..][..i - 1] == s[..i][1..];
      FirstIndexUnique(s[1..], c, i - 1);
    }
  }
}
