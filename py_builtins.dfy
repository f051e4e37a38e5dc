/**
 * The Python built-ins the survey applications lean on, stated over ASCII
 * strings: `str.split` with an explicit separator, `str.join`,
 * `str.capitalize`, the substring test `needle in s`, `str(n)` for a
 * natural number, `os.path.join` for two POSIX components, and the
 * positions a boolean mask selects (a pandas row selection, or the
 * "not yet listened" slots).
 */
module PyBuiltins {

  // ---------------------------------------------------------------------
  // Case mapping (ASCII only)
  // ---------------------------------------------------------------------

  predicate IsLowerLetter(c: char) { 'a' <= c <= 'z' }
  predicate IsUpperLetter(c: char) { 'A' <= c <= 'Z' }

  function Upper(c: char): char {
    if IsLowerLetter(c) then (c as int - 32) as char else c
  }

  function Lower(c: char): char {
    if IsUpperLetter(c) then (c as int + 32) as char else c
  }

  function LowerAll(s: string): string {
    seq(|s|, i requires 0 <= i < |s| => Lower(s[i]))
  }

  /** `str.capitalize`: first character upper-cased, every other one lower-cased. */
  function Capitalize(t: string): string {
    if t == [] then [] else [Upper(t[0])] + LowerAll(t[1..])
  }

  /** A token `str.capitalize` leaves as it is. */
  predicate Capitalized(t: string) {
    (t == [] || !IsLowerLetter(t[0])) &&
    forall i :: 1 <= i < |t| ==> !IsUpperLetter(t[i])
  }

  /** Capitalizing is idempotent, and its fixed points are exactly the capitalized tokens. */
  lemma CapitalizeFixedPoints(t: string)
    ensures Capitalized(Capitalize(t))
    ensures Capitalize(t) == t <==> Capitalized(t)
  {
    if t != [] {
      var r := Capitalize(t);
      assert r[0] == Upper(t[0]);
      assert forall i :: 1 <= i < |t| ==> r[i] == Lower(t[i]);
      if r == t {
        assert forall i :: 1 <= i < |t| ==> t[i] == Lower(t[i]);
      }
      if Capitalized(t) {
        assert forall i :: 1 <= i < |t| ==> r[i] == t[i];
      }
    }
  }

  /** Case mapping never creates or removes a separator character. */
  lemma CaseMappingKeepsNonLetters(c: char, d: char)
    requires !IsLowerLetter(d) && !IsUpperLetter(d)
    ensures Upper(c) == d <==> c == d
    ensures Lower(c) == d <==> c == d
  {
  }

  // ---------------------------------------------------------------------
  // str.split(sep) and sep.join(pieces)
  // ---------------------------------------------------------------------

  /**
   * `s.split(sep)` for a one-character separator: the maximal separator-free
   * runs, in order, empty runs included (so `"".split(sep) == [""]`).
   */
  function Split(s: string, sep: char): (pieces: seq<string>)
    ensures |pieces| >= 1
  {
    if s == [] then [[]]
    else
      var rest := Split(s[1..], sep);
      if s[0] == sep then [[]] + rest
      else [[s[0]] + rest[0]] + rest[1..]
  }

  /** `sep.join(pieces)` for a one-character separator. */
  function Join(pieces: seq<string>, sep: char): string {
    if pieces == [] then []
    else if |pieces| == 1 then pieces[0]
    else pieces[0] + [sep] + Join(pieces[1..], sep)
  }

  /** Joining the pieces of a split gives back the original string. */
  lemma {:induction false} JoinSplit(s: string, sep: char)
    ensures Join(Split(s, sep), sep) == s
  {
    if s != [] {
      var rest := Split(s[1..], sep);
      JoinSplit(s[1..], sep);
      if s[0] == sep {
        assert Split(s, sep) == [[]] + rest;
        assert ([[]] + rest)[1..] == rest;
      } else {
        assert Split(s, sep) == [[s[0]] + rest[0]] + rest[1..];
        JoinConsHead([s[0]], rest[0], rest[1..], sep);
        assert [rest[0]] + rest[1..] == rest;
      }
    }
  }

  lemma {:induction false} SplitSeparatorFree(p: string, sep: char)
    requires sep !in p
    ensures Split(p, sep) == [p]
  {
    if p != [] {
      SplitSeparatorFree(p[1..], sep);
      assert [p[0]] + p[1..] == p;
    }
  }

  lemma {:induction false} SplitAfterPiece(p: string, sep: char, t: string)
    requires sep !in p
    ensures Split(p + [sep] + t, sep) == [p] + Split(t, sep)
  {
    var s := p + [sep] + t;
    if p == [] {
      assert s[1..] == t;
    } else {
      assert s[1..] == p[1..] + [sep] + t;
      SplitAfterPiece(p[1..], sep, t);
      assert [p[0]] + p[1..] == p;
    }
  }

  /** Splitting a join of separator-free pieces gives back the pieces. */
  lemma {:induction false} SplitJoin(pieces: seq<string>, sep: char)
    requires |pieces| >= 1
    requires forall p :: p in pieces ==> sep !in p
    ensures Split(Join(pieces, sep), sep) == pieces
  {
    if |pieces| == 1 {
      SplitSeparatorFree(pieces[0], sep);
    } else {
      SplitJoin(pieces[1..], sep);
      SplitAfterPiece(pieces[0], sep, Join(pieces[1..], sep));
      assert [pieces[0]] + pieces[1..] == pieces;
    }
  }

  /** Appending a piece at the end of a non-empty join. */
  lemma {:induction false} JoinSnoc(pieces: seq<string>, p: string, sep: char)
    requires |pieces| >= 1
    ensures Join(pieces + [p], sep) == Join(pieces, sep) + [sep] + p
  {
    if |pieces| > 1 {
      assert (pieces + [p])[1..] == pieces[1..] + [p];
      JoinSnoc(pieces[1..], p, sep);
    }
  }

  /** A join ends with the last character of its last piece. */
  lemma {:induction false} JoinEndsWithLast(pieces: seq<string>, sep: char)
    requires |pieces| >= 1 && pieces[|pieces| - 1] != []
    ensures var j := Join(pieces, sep);
      var p := pieces[|pieces| - 1];
      |j| >= |p| && j[|j| - 1] == p[|p| - 1]
  {
    if |pieces| > 1 {
      JoinEndsWithLast(pieces[1..], sep);
    }
  }

  /** Prepending characters to the first piece prepends them to the join. */
  lemma JoinConsHead(a: string, b: string, rest: seq<string>, sep: char)
    ensures Join([a + b] + rest, sep) == a + Join([b] + rest, sep)
  {
    if rest != [] {
      assert ([a + b] + rest)[1..] == rest;
      assert ([b] + rest)[1..] == rest;
    }
  }

  /** Every character of a piece of a split comes from the split string. */
  lemma {:induction false} SplitPiecesFrom(s: string, sep: char)
    ensures forall p, c :: p in Split(s, sep) && c in p ==> c in s
  {
    if s != [] {
      SplitPiecesFrom(s[1..], sep);
      var rest := Split(s[1..], sep);
      assert forall c :: c in s[1..] ==> c in s;
      if s[0] != sep {
        assert forall c :: c in [s[0]] + rest[0] ==> c == s[0] || c in rest[0];
      }
    }
  }

  // ---------------------------------------------------------------------
  // Substring test: Python's `needle in s`
  // ---------------------------------------------------------------------

  predicate StartsWith(s: string, prefix: string) {
    |prefix| <= |s| && s[..|prefix|] == prefix
  }

  /** `needle` occurs in `s` starting at index `i`. */
  predicate OccursAt(s: string, needle: string, i: nat) {
    i + |needle| <= |s| && s[i..i + |needle|] == needle
  }

  /** `needle in s`, scanning left to right. */
  predicate Contains(s: string, needle: string)
    decreases |s|
  {
    StartsWith(s, needle) || (s != [] && Contains(s[1..], needle))
  }

  /** The scan finds the needle exactly when it occurs at some index. */
  lemma {:induction false} ContainsIffOccurs(s: string, needle: string)
    ensures Contains(s, needle) <==> exists i: nat :: OccursAt(s, needle, i)
    decreases |s|
  {
    if StartsWith(s, needle) {
      assert OccursAt(s, needle, 0);
    } else if s == [] {
      assert needle != [];
    } else {
      ContainsIffOccurs(s[1..], needle);
      if Contains(s[1..], needle) {
        var i: nat :| OccursAt(s[1..], needle, i);
        assert s[1..][i..i + |needle|] == s[i + 1..i + 1 + |needle|];
        assert OccursAt(s, needle, i + 1);
      } else {
        forall i: nat ensures !OccursAt(s, needle, i) {
          if 0 < i && i + |needle| <= |s| {
            assert s[1..][i - 1..i - 1 + |needle|] == s[i..i + |needle|];
            assert OccursAt(s, needle, i) ==> OccursAt(s[1..], needle, i - 1);
          }
        }
      }
    }
  }

  // ---------------------------------------------------------------------
  // str(n) for a natural number, and reading it back
  // ---------------------------------------------------------------------

  predicate IsDigit(c: char) { '0' <= c <= '9' }

  function Digit(d: nat): char
    requires d < 10
  {
    ('0' as int + d) as char
  }

  function DigitValue(c: char): nat {
    if IsDigit(c) then c as int - '0' as int else 0
  }

  /** `str(n)`: the decimal digits of `n`, most significant first. */
  function NatToString(n: nat): (digits: string)
    ensures |digits| >= 1
    ensures forall i :: 0 <= i < |digits| ==> IsDigit(digits[i])
  {
    if n < 10 then [Digit(n)] else NatToString(n / 10) + [Digit(n % 10)]
  }

  /** `int(s)` on a string of decimal digits. */
  function ParseNat(s: string): nat {
    if s == [] then 0 else 10 * ParseNat(s[..|s| - 1]) + DigitValue(s[|s| - 1])
  }

  /** Reading back the decimal form of `n` gives `n`. */
  lemma {:induction false} ParseNatToString(n: nat)
    ensures ParseNat(NatToString(n)) == n
  {
    if n >= 10 {
      var s := NatToString(n);
      assert s[..|s| - 1] == NatToString(n / 10);
      ParseNatToString(n / 10);
    }
  }

  // ---------------------------------------------------------------------
  // os.path.join(a, b) on POSIX
  // ---------------------------------------------------------------------

  /**
   * `os.path.join(a, b)`: an absolute `b` discards `a`; otherwise `b` is
   * appended to `a` with one `/` unless `a` is empty or already ends in `/`.
   */
  function PathJoin(a: string, b: string): string {
    if StartsWith(b, "/") then b
    else if a == [] || a[|a| - 1] == '/' then a + b
    else a + "/" + b
  }

  // ---------------------------------------------------------------------
  // Positions selected by a boolean mask
  // ---------------------------------------------------------------------

  /** The indices below `n` at which `mask` holds, in increasing order. */
  function Positions(mask: seq<bool>, n: nat): (ps: seq<nat>)
    requires n <= |mask|
    ensures forall i :: 0 <= i < |ps| ==> ps[i] < n
  {
    if n == 0 then [] else Positions(mask, n - 1) + (if mask[n - 1] then [n - 1] else [])
  }

  /** Positions lists exactly the selected indices, strictly increasing. */
  lemma {:induction false} PositionsSpec(mask: seq<bool>, n: nat)
    requires n <= |mask|
    ensures forall k: nat :: k in Positions(mask, n) <==> k < n && mask[k]
    ensures forall i, j :: 0 <= i < j < |Positions(mask, n)| ==>
      Positions(mask, n)[i] < Positions(mask, n)[j]
  {
    if n > 0 {
      PositionsSpec(mask, n - 1);
      var prev := Positions(mask, n - 1);
      forall i | 0 <= i < |prev| ensures prev[i] < n - 1 {
        assert prev[i] in prev;
      }
    }
  }

  /** A mask selecting exactly one index `j` has `j` as its only position. */
  lemma {:induction false} SinglePosition(mask: seq<bool>, j: nat, n: nat)
    requires n <= |mask| && j < |mask| && mask[j]
    requires forall k :: 0 <= k < |mask| && mask[k] ==> k == j
    ensures Positions(mask, n) == if j < n then [j] else []
  {
    if n > 0 {
      SinglePosition(mask, j, n - 1);
    }
  }
}
