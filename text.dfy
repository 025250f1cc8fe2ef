/** The string operations the analyzers rely on: `str.split()` with no
    separator, `str(int)`, `str.replace` and the substring test `x in s`. */
module Text {

  /** Python's `str.isspace()` for one character: the ASCII separators
      tab, newline, vertical tab, form feed, carriage return, the four
      information separators 0x1C-0x1F, space, and the Unicode spaces. */
  predicate IsSpace(c: char) {
    var n := c as int;
    (9 <= n <= 13) || (28 <= n <= 32) || n == 0x85 || n == 0xA0 || n == 0x1680
    || (0x2000 <= n <= 0x200A) || n == 0x2028 || n == 0x2029 || n == 0x202F
    || n == 0x205F || n == 0x3000
  }

  predicate NoSpace(w: string) {
    forall i :: 0 <= i < |w| ==> !IsSpace(w[i])
  }

  /** A token as `str.split()` produces one: non-empty, no whitespace. */
  predicate IsToken(w: string) {
    w != [] && NoSpace(w)
  }

  /** `s` with its leading whitespace removed. */
  function TrimLeft(s: string): (r: string)
    ensures |r| <= |s|
    ensures r == [] || !IsSpace(r[0])
  {
    if s != [] && IsSpace(s[0]) then TrimLeft(s[1..]) else s
  }

  /** The longest prefix of `s` that holds no whitespace. */
  function Word(s: string): (w: string)
    ensures |w| <= |s| && w == s[..|w|]
    ensures NoSpace(w)
    ensures |w| < |s| ==> IsSpace(s[|w|])
  {
    if s != [] && !IsSpace(s[0]) then [s[0]] + Word(s[1..]) else []
  }

  /** Python's `s.split()`: runs of whitespace separate tokens, and leading
      or trailing whitespace yields no empty token. */
  function Split(s: string): (ws: seq<string>)
    ensures forall i :: 0 <= i < |ws| ==> IsToken(ws[i])
    decreases |s|
  {
    var t := TrimLeft(s);
    if t == [] then []
    else
      var w := Word(t);
      assert w != [];
      var rest := Split(t[|w|..]);
      assert IsToken(w);
      [w] + rest
  }

  lemma {:induction false} WordOfToken(w: string, rest: string)
    requires NoSpace(w)
    requires rest == [] || IsSpace(rest[0])
    ensures Word(w + rest) == w
  {
    if w == [] {
      assert w + rest == rest;
    } else {
      assert (w + rest)[1..] == w[1..] + rest;
      WordOfToken(w[1..], rest);
    }
  }

  /** A run of whitespace, possibly empty. */
  predicate AllSpace(sp: string) {
    forall i :: 0 <= i < |sp| ==> IsSpace(sp[i])
  }

  /** Leading whitespace of any kind and length yields no token. */
  lemma {:induction false} SplitSkipsSpaces(sp: string, s: string)
    requires AllSpace(sp)
    ensures Split(sp + s) == Split(s)
    decreases |sp|
  {
    if sp == [] {
      assert sp + s == s;
    } else {
      assert (sp + s)[1..] == sp[1..] + s;
      assert IsSpace((sp + s)[0]);
      SplitSkipsSpaces(sp[1..], s);
      assert TrimLeft(sp + s) == TrimLeft(sp[1..] + s);
    }
  }

  /** The tokens written out with the separator `seps[i]` between token `i`
      and token `i + 1`. */
  function Spaced(ws: seq<string>, seps: seq<string>): string
    requires |seps| == if ws == [] then 0 else |ws| - 1
  {
    if |ws| <= 1 then (if ws == [] then "" else ws[0])
    else ws[0] + seps[0] + Spaced(ws[1..], seps[1..])
  }

  /** Every element is a token. */
  predicate Tokens(ws: seq<string>) {
    forall i :: 0 <= i < |ws| ==> IsToken(ws[i])
  }

  /** Separators for `n` tokens: one non-empty whitespace run between each
      two of them. */
  predicate Separators(seps: seq<string>, n: nat) {
    && |seps| == (if n == 0 then 0 else n - 1)
    && forall i :: 0 <= i < |seps| ==> seps[i] != [] && AllSpace(seps[i])
  }

  /** `split()` gives the tokens back whatever whitespace runs separate them
      and whatever whitespace surrounds them. */
  lemma SplitSpaced(lead: string, ws: seq<string>, seps: seq<string>, trail: string)
    requires Tokens(ws) && Separators(seps, |ws|)
    requires AllSpace(lead) && AllSpace(trail)
    ensures Split(lead + Spaced(ws, seps) + trail) == ws
  {
    assert lead + Spaced(ws, seps) + trail == lead + (Spaced(ws, seps) + trail);
    SplitSkipsSpaces(lead, Spaced(ws, seps) + trail);
    SplitSpacedTail(ws, seps, trail);
  }

  lemma {:induction false} SplitSpacedTail(ws: seq<string>, seps: seq<string>, trail: string)
    requires Tokens(ws) && Separators(seps, |ws|) && AllSpace(trail)
    ensures Split(Spaced(ws, seps) + trail) == ws
  {
    SplitSkipsSpaces(trail, "");
    assert trail + "" == trail;
    if ws == [] {
      assert Spaced(ws, seps) + trail == trail;
    } else if |ws| == 1 {
      SplitToken(ws[0], trail);
      HeadTail(ws);
    } else {
      var ws', seps' := ws[1..], seps[1..];
      var rest := Spaced(ws', seps') + trail;
      assert Spaced(ws, seps) + trail == ws[0] + (seps[0] + rest);
      SplitToken(ws[0], seps[0] + rest);
      SplitSkipsSpaces(seps[0], rest);
      assert Tokens(ws') && Separators(seps', |ws'|);
      SplitSpacedTail(ws', seps', trail);
      HeadTail(ws);
    }
  }

  lemma HeadTail<T>(s: seq<T>)
    requires s != []
    ensures [s[0]] + s[1..] == s
  {
  }

  /** A token followed by whitespace or by nothing is split off whole. */
  lemma SplitToken(w: string, after: string)
    requires IsToken(w) && (after == [] || IsSpace(after[0]))
    ensures Split(w + after) == [w] + Split(after)
  {
    var s := w + after;
    WordOfToken(w, after);
    assert TrimLeft(s) == s;
    assert s[|w|..] == after;
  }

  // ---------------------------------------------------------------------
  // Decimal rendering of integers, as `str(n)` and an f-string `{n}` do.

  function DigitChar(d: nat): char
    requires d < 10
  {
    "0123456789"[d]
  }

  function NatToString(n: nat): (s: string)
    ensures s != []
    decreases n
  {
    if n < 10 then [DigitChar(n)] else NatToString(n / 10) + [DigitChar(n % 10)]
  }

  /** `str(n)` for a Python int: a minus sign for negatives, then the digits. */
  function IntToString(n: int): string {
    if n < 0 then "-" + NatToString(-n) else NatToString(n)
  }

  function DigitValue(c: char): int {
    c as int - '0' as int
  }

  /** Reads a string of decimal digits back into a number. */
  function DigitsValue(s: string): int {
    if s == [] then 0 else DigitsValue(s[..|s| - 1]) * 10 + DigitValue(s[|s| - 1])
  }

  /** Reading the decimal rendering of `n` back gives `n`: the rendering
      loses nothing. */
  lemma {:induction false} NatToStringRoundTrip(n: nat)
    ensures DigitsValue(NatToString(n)) == n
    decreases n
  {
    var s := NatToString(n);
    if n < 10 {
      assert DigitValue(DigitChar(n)) == n;
      assert s[..|s| - 1] == [];
    } else {
      NatToStringRoundTrip(n / 10);
      assert s[..|s| - 1] == NatToString(n / 10);
      assert DigitValue(DigitChar(n % 10)) == n % 10;
    }
  }

  // ---------------------------------------------------------------------
  // Substrings and `str.replace`.

  /** `t` stands in `s` at index `i`. */
  predicate OccursAt(s: string, t: string, i: int) {
    0 <= i <= |s| - |t| && s[i..i + |t|] == t
  }

  /** Python's `t in s` for strings. */
  predicate Contains(s: string, t: string) {
    exists i | 0 <= i <= |s| :: OccursAt(s, t, i)
  }

  lemma ContainsSelf(s: string)
    ensures Contains(s, s)
  {
    assert OccursAt(s, s, 0);
  }

  lemma ContainsConcat(x: string, s: string, y: string, t: string)
    requires Contains(s, t)
    ensures Contains(x + s + y, t)
  {
    var i :| 0 <= i <= |s| && OccursAt(s, t, i);
    var j := |x| + i;
    assert (x + s + y)[j..j + |t|] == s[i..i + |t|];
    assert OccursAt(x + s + y, t, j);
  }

  lemma ContainsTrans(s: string, m: string, t: string)
    requires Contains(s, m) && Contains(m, t)
    ensures Contains(s, t)
  {
    var i :| 0 <= i <= |s| && OccursAt(s, m, i);
    var j :| 0 <= j <= |m| && OccursAt(m, t, j);
    assert s[i + j..i + j + |t|] == t by {
      forall k | 0 <= k < |t|
        ensures s[i + j + k] == t[k]
      {
        assert s[i + j + k] == s[i..i + |m|][j + k] == m[j + k] == m[j..j + |t|][k];
      }
    }
    assert OccursAt(s, t, i + j);
  }

  /** Python's `s.replace(pat, rep)` for a non-empty `pat`: every
      occurrence, scanned left to right without overlap, is replaced. */
  function Replace(s: string, pat: string, rep: string): string
    requires pat != []
    decreases |s|
  {
    if |s| < |pat| then s
    else if s[..|pat|] == pat then rep + Replace(s[|pat|..], pat, rep)
    else [s[0]] + Replace(s[1..], pat, rep)
  }

  /** A string without the pattern comes back unchanged. */
  lemma {:induction false} ReplaceAbsent(s: string, pat: string, rep: string)
    requires pat != [] && !Contains(s, pat)
    ensures Replace(s, pat, rep) == s
    decreases |s|
  {
    if |s| < |pat| {
    } else {
      assert s[0..|pat|] == s[..|pat|];
      assert !OccursAt(s, pat, 0);
      if !Contains(s[1..], pat) {
        ReplaceAbsent(s[1..], pat, rep);
      } else {
        var i :| 0 <= i <= |s[1..]| && OccursAt(s[1..], pat, i);
        assert s[i + 1..i + 1 + |pat|] == pat;
        assert OccursAt(s, pat, i + 1);
      }
      assert s == [s[0]] + s[1..];
    }
  }

  /** Where the pattern occurs at least once, the replacement text occurs
      in the result. */
  lemma {:induction false} ReplaceInserts(s: string, pat: string, rep: string)
    requires pat != [] && Contains(s, pat)
    ensures Contains(Replace(s, pat, rep), rep)
    decreases |s|
  {
    var k :| 0 <= k <= |s| && OccursAt(s, pat, k);
    if s[..|pat|] == pat {
      var r := Replace(s[|pat|..], pat, rep);
      assert (rep + r)[0..|rep|] == rep;
      assert OccursAt(rep + r, rep, 0);
    } else {
      assert k != 0;
      assert s[1..][k - 1..k - 1 + |pat|] == pat;
      assert OccursAt(s[1..], pat, k - 1);
      ReplaceInserts(s[1..], pat, rep);
      ContainsConcat([s[0]], Replace(s[1..], pat, rep), [], rep);
      assert [s[0]] + Replace(s[1..], pat, rep) + [] == Replace(s, pat, rep);
    }
  }

  // ---------------------------------------------------------------------
  // Facts about concatenation, stated on arbitrary strings so that long
  // literal text never has to be compared character by character.

  lemma ConcatAssoc(a: string, b: string, c: string)
    ensures a + b + c == a + (b + c)
  {
  }

  lemma EmptyMiddle(a: string, c: string)
    ensures a + "" + c == a + c
  {
  }

  lemma PrefixOfPrefix(a: string, b: string, c: string)
    requires a + b <= c
    ensures a <= c
  {
    assert a == (a + b)[..|a|];
  }

  /** Where `before + piece` starts `all`, `piece` sits right after `before`. */
  lemma SliceAfterPrefix(all: string, before: string, piece: string)
    requires before + piece <= all
    ensures all[|before|..|before| + |piece|] == piece
  {
    assert all[..|before| + |piece|] == before + piece;
    assert (before + piece)[|before|..] == piece;
  }

  /** The three parts of `a + b + c` at their offsets. */
  lemma ThreeParts(a: string, b: string, c: string)
    ensures |a + b + c| == |a| + |b| + |c|
    ensures (a + b + c)[..|a|] == a
    ensures (a + b + c)[|a| + |b|..] == c
  {
    assert (a + b + c)[..|a|] == (a + b)[..|a|];
  }

  /** A slice of the middle part, seen from the whole. */
  lemma MiddleSlice(a: string, b: string, c: string, i: int, j: int)
    requires 0 <= i <= j <= |b|
    ensures (a + b + c)[|a| + i..|a| + j] == b[i..j]
  {
    var r := a + b + c;
    assert forall k :: 0 <= k < j - i ==> r[|a| + i..|a| + j][k] == b[i..j][k];
  }

  // ---------------------------------------------------------------------
  // A string grown by `+=`, one piece per element.

  /** The pieces `f(us[0])`, ..., `f(us[|us| - 1])` written one after the
      other, as a loop appending `f(u)` for each `u` builds them. */
  function ConcatMap(us: seq<string>, f: string -> string): string
    decreases |us|
  {
    if us == [] then "" else ConcatMap(us[..|us| - 1], f) + f(us[|us| - 1])
  }

  lemma ConcatMapStep(us: seq<string>, i: int, f: string -> string)
    requires 0 <= i < |us|
    ensures ConcatMap(us[..i + 1], f) == ConcatMap(us[..i], f) + f(us[i])
  {
    assert us[..i + 1][..i] == us[..i];
  }

  /** What the first `k` elements give is how the whole starts. */
  lemma {:induction false} ConcatMapPrefix(us: seq<string>, k: int, f: string -> string)
    requires 0 <= k <= |us|
    ensures ConcatMap(us[..k], f) <= ConcatMap(us, f)
    decreases |us| - k
  {
    if k < |us| {
      ConcatMapPrefix(us, k + 1, f);
      ConcatMapStep(us, k, f);
      PrefixOfPrefix(ConcatMap(us[..k], f), f(us[k]), ConcatMap(us, f));
    } else {
      assert us[..k] == us;
    }
  }

  /** The piece of element `j` starts where the pieces before it end. */
  lemma ConcatMapAt(us: seq<string>, j: int, f: string -> string)
    requires 0 <= j < |us|
    ensures |ConcatMap(us[..j], f)| + |f(us[j])| <= |ConcatMap(us, f)|
    ensures ConcatMap(us, f)[|ConcatMap(us[..j], f)|..|ConcatMap(us[..j], f)| + |f(us[j])|] == f(us[j])
  {
    ConcatMapPrefix(us, j + 1, f);
    ConcatMapStep(us, j, f);
    SliceAfterPrefix(ConcatMap(us, f), ConcatMap(us[..j], f), f(us[j]));
  }

  /** Every element's piece occurs in the whole. */
  lemma ConcatMapContains(us: seq<string>, j: int, f: string -> string)
    requires 0 <= j < |us|
    ensures Contains(ConcatMap(us, f), f(us[j]))
  {
    ConcatMapAt(us, j, f);
    var start := |ConcatMap(us[..j], f)|;
    assert OccursAt(ConcatMap(us, f), f(us[j]), start);
  }

  /** `ConcatMapAt` with the piece given by its value. */
  lemma ConcatMapAtValue(us: seq<string>, j: int, f: string -> string, v: string)
    requires 0 <= j < |us| && f(us[j]) == v
    ensures OccursAt(ConcatMap(us, f), v, |ConcatMap(us[..j], f)|)
  {
    ConcatMapAt(us, j, f);
  }

  /** One more piece appended onto `prefix` and the pieces so far. */
  lemma ConcatMapStepOnto(prefix: string, us: seq<string>, i: int, f: string -> string, v: string)
    requires 0 <= i < |us| && f(us[i]) == v
    ensures prefix + ConcatMap(us[..i + 1], f) == prefix + ConcatMap(us[..i], f) + v
  {
    ConcatMapStep(us, i, f);
    ConcatAssoc(prefix, ConcatMap(us[..i], f), v);
  }
}
