/** Text helpers shared by the Rust agent and the Go server: trimming, ASCII lower-casing, bounded
    truncation and byte-wise ordering. Characters stand for bytes. */
module Text {

  predicate IsSpace(c: char) {
    c == ' ' || '\t' <= c <= '\r' || c == '\U{85}' || c == '\U{A0}'
  }

  function TrimLeft(s: string): (r: string)
    ensures |r| <= |s|
    ensures r != [] ==> !IsSpace(r[0])
  {
    if s != [] && IsSpace(s[0]) then TrimLeft(s[1..]) else s
  }

  function TrimRight(s: string): (r: string)
    ensures r <= s
    ensures r != [] ==> !IsSpace(r[|r| - 1])
  {
    if s != [] && IsSpace(s[|s| - 1]) then TrimRight(s[..|s| - 1]) else s
  }

  function TrimSpace(s: string): string {
    TrimRight(TrimLeft(s))
  }

  function LowerChar(c: char): char {
    if 'A' <= c <= 'Z' then (c as int + 32) as char else c
  }

  function ToLower(s: string): (r: string)
    ensures |r| == |s|
  {
    seq(|s|, i requires 0 <= i < |s| => LowerChar(s[i]))
  }

  /** Trim, then keep at most n bytes. */
  function Trunc(s: string, n: nat): (r: string)
    ensures |r| <= n
  {
    var t := TrimSpace(s);
    if |t| > n then t[..n] else t
  }

  // ---- what the helpers give ----

  /** The white space both languages trim from byte strings. */
  lemma SpaceCodes(c: char)
    ensures IsSpace(c) <==> c in "\t\n\U{B}\U{C}\r \U{85}\U{A0}"
  {
    var spaces := "\t\n\U{B}\U{C}\r \U{85}\U{A0}";
    assert spaces[0] == '\t' && spaces[1] == '\n' && spaces[2] == '\U{B}' && spaces[3] == '\U{C}';
    assert spaces[4] == '\r' && spaces[5] == ' ' && spaces[6] == '\U{85}' && spaces[7] == '\U{A0}';
  }

  /** A text trimmed at both ends: what was cut off is white space, and what is left neither begins nor ends
      with any. */
  ghost predicate Trimmed(s: string, t: string, n: nat) {
    && n + |t| <= |s| && t == s[n..n + |t|]
    && (forall i | 0 <= i < n || n + |t| <= i < |s| :: IsSpace(s[i]))
    && (t != [] ==> !IsSpace(t[0]) && !IsSpace(t[|t| - 1]))
  }

  lemma {:induction false} TrimLeftCuts(s: string) returns (n: nat)
    ensures n + |TrimLeft(s)| == |s| && TrimLeft(s) == s[n..] && forall i | 0 <= i < n :: IsSpace(s[i])
  {
    if s != [] && IsSpace(s[0]) {
      var m := TrimLeftCuts(s[1..]);
      n := m + 1;
      assert forall i | 1 <= i < n :: s[i] == s[1..][i - 1];
    } else {
      n := 0;
    }
  }

  lemma {:induction false} TrimRightCuts(s: string)
    ensures forall i | |TrimRight(s)| <= i < |s| :: IsSpace(s[i])
  {
    if s != [] && IsSpace(s[|s| - 1]) {
      TrimRightCuts(s[..|s| - 1]);
    }
  }

  lemma TrimSpaceCuts(s: string) returns (n: nat)
    ensures Trimmed(s, TrimSpace(s), n)
  {
    n := TrimLeftCuts(s);
    TrimRightCuts(TrimLeft(s));
    var l, t := TrimLeft(s), TrimSpace(s);
    assert l == s[n..] && t == l[..|t|];
    forall i | n + |t| <= i < |s| ensures IsSpace(s[i]) {
      assert s[i] == l[i - n];
    }
    assert t != [] ==> t[0] == l[0];
  }

  /** There is one such text. */
  lemma TrimmedUnique(s: string, t: string, n: nat, u: string, m: nat)
    requires Trimmed(s, t, n) && Trimmed(s, u, m)
    ensures t == u
  {
    if t != [] && u != [] {
      assert t[0] == s[n] && t[|t| - 1] == s[n + |t| - 1];
      assert u[0] == s[m] && u[|u| - 1] == s[m + |u| - 1];
    }
  }

  /** A text without white space at its ends is trimmed to itself, and cut at n bytes. */
  lemma TruncIs(s: string, n: nat)
    requires s == [] || (!IsSpace(s[0]) && !IsSpace(s[|s| - 1]))
    ensures TrimSpace(s) == s && Trunc(s, n) == if |s| <= n then s else s[..n]
  {
    var m := TrimSpaceCuts(s);
    TrimmedUnique(s, TrimSpace(s), m, s, 0);
  }

  /** Capital letters, codes 65 to 90, become the small ones 32 further on, and nothing else changes. */
  lemma LowerIs(s: string, i: nat)
    requires i < |s|
    ensures ToLower(s)[i] as int == s[i] as int + if 65 <= s[i] as int <= 90 then 32 else 0
  {
  }

  /** Byte-wise (lexicographic) order on strings. */
  predicate LexLess(a: string, b: string) {
    if b == [] then false
    else if a == [] then true
    else a[0] < b[0] || (a[0] == b[0] && LexLess(a[1..], b[1..]))
  }

  lemma {:induction false} LexTotal(a: string, b: string)
    ensures LexLess(a, b) || a == b || LexLess(b, a)
    ensures !(LexLess(a, b) && LexLess(b, a))
    ensures a == b ==> !LexLess(a, b)
  {
    if a != [] && b != [] {
      assert a == [a[0]] + a[1..] && b == [b[0]] + b[1..];
      LexTotal(a[1..], b[1..]);
    }
  }

  /** The texts first differ at n, where a ends or has the smaller byte. */
  ghost predicate FirstDiffers(a: string, b: string, n: nat) {
    n <= |a| && n < |b| && a[..n] == b[..n] && (n == |a| || a[n] < b[n])
  }

  lemma {:induction false} LexLessIff(a: string, b: string)
    ensures LexLess(a, b) <==> exists n: nat :: FirstDiffers(a, b, n)
  {
    if b == [] {
    } else if a == [] {
      assert FirstDiffers(a, b, 0);
    } else {
      LexLessIff(a[1..], b[1..]);
      if LexLess(a, b) {
        if a[0] < b[0] {
          assert FirstDiffers(a, b, 0);
        } else {
          var n: nat :| FirstDiffers(a[1..], b[1..], n);
          assert a[..n + 1] == [a[0]] + a[1..][..n] && b[..n + 1] == [b[0]] + b[1..][..n];
          assert FirstDiffers(a, b, n + 1);
        }
      }
      if n: nat :| FirstDiffers(a, b, n) {
        if n > 0 {
          assert a[..n][0] == a[0] && b[..n][0] == b[0];
          assert a[1..][..n - 1] == a[..n][1..] && b[1..][..n - 1] == b[..n][1..];
          assert FirstDiffers(a[1..], b[1..], n - 1);
        }
      }
    }
  }

  lemma {:induction false} LexTransitive(a: string, b: string, c: string)
    requires LexLess(a, b) && LexLess(b, c)
    ensures LexLess(a, c)
  {
    if a != [] && a[0] == b[0] == c[0] {
      LexTransitive(a[1..], b[1..], c[1..]);
    }
  }
}
