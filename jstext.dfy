/** The parts of JavaScript string semantics the publisher relies on: the
    character classes behind the regular-expression escape `\s`, the `.`
    wildcard and `String.prototype.trim`, and `Array.prototype.join`. */
module JsText {

  /** ECMAScript LineTerminator: the characters `.` does not match. */
  predicate IsLineTerminator(c: char) {
    c == '\n' || c == '\r' || c == '\U{2028}' || c == '\U{2029}'
  }

  /** ECMAScript WhiteSpace or LineTerminator: what `\s` matches and what
      `trim` removes. */
  predicate IsSpace(c: char) {
    || IsLineTerminator(c)
    || c == '\t' || c == '\U{000B}' || c == '\U{000C}' || c == ' '
    || c == '\U{00A0}' || c == '\U{1680}' || ('\U{2000}' <= c <= '\U{200A}')
    || c == '\U{202F}' || c == '\U{205F}' || c == '\U{3000}' || c == '\U{FEFF}'
  }

  predicate IsBlank(s: string) {
    forall i :: 0 <= i < |s| ==> IsSpace(s[i])
  }

  /** The whitespace characters of a string, dropped: what stays the same
      when only whitespace is removed or rewritten. */
  function NonSpace(s: string): (r: string)
    ensures |r| <= |s|
    ensures forall i :: 0 <= i < |r| ==> !IsSpace(r[i])
  {
    if s == [] then []
    else if IsSpace(s[0]) then NonSpace(s[1..])
    else [s[0]] + NonSpace(s[1..])
  }

  lemma {:induction false} NonSpaceAppend(a: string, b: string)
    ensures NonSpace(a + b) == NonSpace(a) + NonSpace(b)
  {
    if a == [] {
      assert a + b == b;
    } else {
      assert (a + b)[0] == a[0];
      assert (a + b)[1..] == a[1..] + b;
      NonSpaceAppend(a[1..], b);
    }
  }

  lemma {:induction false} NonSpaceOfBlank(s: string)
    requires IsBlank(s)
    ensures NonSpace(s) == []
  {
    if s != [] {
      NonSpaceOfBlank(s[1..]);
    }
  }

  /** Number of whitespace characters `trimStart` removes. */
  function LeadingSpaces(s: string): (n: nat)
    ensures n <= |s|
    ensures IsBlank(s[..n])
    ensures n < |s| ==> !IsSpace(s[n])
  {
    if s == [] || !IsSpace(s[0]) then 0
    else
      var n := 1 + LeadingSpaces(s[1..]);
      assert s[..n] == [s[0]] + s[1..][..n - 1];
      n
  }

  /** Number of whitespace characters `trimEnd` removes. */
  function TrailingSpaces(s: string): (n: nat)
    ensures n <= |s|
    ensures IsBlank(s[|s| - n..])
    ensures n < |s| ==> !IsSpace(s[|s| - 1 - n])
  {
    if s == [] || !IsSpace(s[|s| - 1]) then 0
    else
      var p := s[..|s| - 1];
      var n := 1 + TrailingSpaces(p);
      assert s[|s| - n..] == p[|p| - (n - 1)..] + [s[|s| - 1]];
      n
  }

  /** `String.prototype.trim`: the result is the slice of `s` left when the
      whitespace at both ends is cut off, and it neither starts nor ends
      with whitespace. */
  function Trim(s: string): (r: string)
    ensures r == [] || (!IsSpace(r[0]) && !IsSpace(r[|r| - 1]))
    ensures LeadingSpaces(s) + |r| <= |s|
    ensures r == s[LeadingSpaces(s)..LeadingSpaces(s) + |r|]
    ensures IsBlank(s[LeadingSpaces(s) + |r|..])
  {
    var lead := LeadingSpaces(s);
    if lead == |s| then
      assert s[0..0] == [] && s[|s|..] == [];
      []
    else
      var t := s[lead..];
      var trail := TrailingSpaces(t);
      assert trail < |t| by { assert !IsSpace(t[0]); }
      var r := t[..|t| - trail];
      assert s[lead..lead + |r|] == r;
      assert s[lead + |r|..] == t[|t| - trail..];
      r
  }

  /** A string that has no whitespace at either end is its own trim. */
  lemma TrimUnchanged(s: string)
    requires s == [] || (!IsSpace(s[0]) && !IsSpace(s[|s| - 1]))
    ensures Trim(s) == s
  {
    if s != [] {
      assert LeadingSpaces(s) == 0;
      assert TrailingSpaces(s) == 0;
    }
  }

  /** The leading whitespace is the one blank prefix followed by a
      non-whitespace character or by nothing. */
  lemma LeadingSpacesAt(s: string, n: nat)
    requires n <= |s| && IsBlank(s[..n]) && (n < |s| ==> !IsSpace(s[n]))
    ensures LeadingSpaces(s) == n
  {
    var l := LeadingSpaces(s);
    assert forall k :: 0 <= k < n ==> s[..n][k] == s[k];
    assert forall k :: 0 <= k < l ==> s[..l][k] == s[k];
  }

  /** A text made only of whitespace trims to nothing. */
  lemma TrimOfBlank(s: string)
    requires IsBlank(s)
    ensures Trim(s) == []
  {
    assert s[..|s|] == s;
    LeadingSpacesAt(s, |s|);
  }

  /** Trimming keeps exactly the text `m` found at index `i` when everything
      before and after it is whitespace and `m` neither starts nor ends with
      it. */
  lemma TrimExtent(s: string, i: nat, m: string)
    requires i + |m| <= |s| && s[i..i + |m|] == m
    requires IsBlank(s[..i]) && IsBlank(s[i + |m|..])
    requires m == [] || (!IsSpace(m[0]) && !IsSpace(m[|m| - 1]))
    ensures Trim(s) == m
  {
    var n := |m|;
    if n == 0 {
      TrimOfBlankParts(s, i);
    } else {
      assert s[i] == m[0] && s[i + n - 1] == m[n - 1];
      LeadingSpacesAt(s, i);
      TrimLength(s, i, n);
    }
  }

  lemma TrimOfBlankParts(s: string, i: nat)
    requires i <= |s| && IsBlank(s[..i]) && IsBlank(s[i..])
    ensures Trim(s) == []
  {
    assert s == s[..i] + s[i..];
    BlankAppend(s[..i], s[i..]);
    TrimOfBlank(s);
  }

  lemma TrimLength(s: string, i: nat, n: nat)
    requires 0 < n && i + n <= |s| && IsBlank(s[i + n..])
    requires !IsSpace(s[i]) && !IsSpace(s[i + n - 1])
    requires LeadingSpaces(s) == i
    ensures |Trim(s)| == n
  {
    var r := Trim(s);
    assert forall k :: i + |r| <= k < |s| ==> s[i + |r|..][k - i - |r|] == s[k];
    assert forall k :: i + n <= k < |s| ==> s[i + n..][k - i - n] == s[k];
    assert r != [] ==> r[|r| - 1] == s[i + |r| - 1];
  }

  /** Whatever whitespace surrounds a text that neither starts nor ends
      with whitespace, trimming gives back exactly that text. */
  lemma TrimOf(a: string, m: string, c: string)
    requires IsBlank(a) && IsBlank(c)
    requires m == [] || (!IsSpace(m[0]) && !IsSpace(m[|m| - 1]))
    ensures Trim(a + m + c) == m
  {
    var s := a + m + c;
    assert s[..|a|] == a;
    assert s[|a| + |m|..] == c;
    assert s[|a|..|a| + |m|] == m;
    TrimExtent(s, |a|, m);
  }

  lemma BlankAppend(x: string, y: string)
    requires IsBlank(x) && IsBlank(y)
    ensures IsBlank(x + y)
  {
    forall i | 0 <= i < |x + y| ensures IsSpace((x + y)[i]) {
      if i < |x| { assert (x + y)[i] == x[i]; } else { assert (x + y)[i] == y[i - |x|]; }
    }
  }

  lemma SliceThree(s: string, i: nat, j: nat)
    requires i <= j <= |s|
    ensures s == s[..i] + s[i..j] + s[j..]
  {
    assert s[i..] == s[i..j] + s[j..];
    assert s == s[..i] + s[i..];
  }

  /** A text is its leading whitespace, its trim and its trailing whitespace. */
  lemma TrimSplits(s: string)
    ensures s == s[..LeadingSpaces(s)] + Trim(s) + s[LeadingSpaces(s) + |Trim(s)|..]
  {
    var lead := LeadingSpaces(s);
    var r := Trim(s);
    SliceThree(s, lead, lead + |r|);
  }

  lemma TrimSpaceCons(c: char, x: string)
    requires IsSpace(c)
    ensures Trim([c] + x) == Trim(x)
  {
    var s := [c] + x;
    assert s[1..] == x;
    assert LeadingSpaces(s) == 1 + LeadingSpaces(x);
    assert s[LeadingSpaces(s)..] == x[LeadingSpaces(x)..];
  }

  /** Whitespace in front of a text does not change its trim. */
  lemma {:induction false} TrimBlankPrefix(w: string, b: string)
    requires IsBlank(w)
    ensures Trim(w + b) == Trim(b)
  {
    if w != [] {
      assert IsBlank(w[1..]) by {
        assert forall k :: 0 <= k < |w| - 1 ==> w[1..][k] == w[k + 1];
      }
      var rest := w[1..] + b;
      assert w + b == [w[0]] + rest;
      TrimSpaceCons(w[0], rest);
      TrimBlankPrefix(w[1..], b);
    } else {
      assert w + b == b;
    }
  }

  /** Trimming twice trims no more than trimming once. */
  lemma TrimIdempotent(s: string)
    ensures Trim(Trim(s)) == Trim(s)
  {
    TrimUnchanged(Trim(s));
  }

  /** Trimming removes whitespace and nothing else. */
  lemma TrimKeepsNonSpace(s: string)
    ensures NonSpace(Trim(s)) == NonSpace(s)
  {
    var r := Trim(s);
    var i := LeadingSpaces(s);
    TrimSplits(s);
    NonSpaceAppend(s[..i] + r, s[i + |r|..]);
    NonSpaceAppend(s[..i], r);
    NonSpaceOfBlank(s[..i]);
    NonSpaceOfBlank(s[i + |r|..]);
  }

  /** `parts.join(sep)`. */
  function Join(parts: seq<string>, sep: string): string
  {
    if parts == [] then ""
    else if |parts| == 1 then parts[0]
    else parts[0] + sep + Join(parts[1..], sep)
  }
}
