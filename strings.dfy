/**
 * The Foundation string operations the bot relies on, over ASCII: the
 * character sets `alphanumerics` and `whitespaces`, `lowercased()`,
 * `components(separatedBy:)`, `joined(separator:)`, removing spaces,
 * `Int(String)` and `String(Int)`.
 */
module Strings {
  import opened Wrappers

  /** A member of `CharacterSet.alphanumerics` (ASCII letters and digits). */
  predicate IsAlnum(c: char) { 'a' <= c <= 'z' || 'A' <= c <= 'Z' || '0' <= c <= '9' }

  /** A member of `CharacterSet.alphanumerics.inverted`. */
  predicate NotAlnum(c: char) { !IsAlnum(c) }

  /** A member of `CharacterSet.whitespaces`: space or horizontal tab. */
  predicate IsWhitespace(c: char) { c == ' ' || c == '\t' }

  predicate IsSpace(c: char) { c == ' ' }

  predicate IsDigit(c: char) { '0' <= c <= '9' }

  function ToLower(c: char): char { if 'A' <= c <= 'Z' then (c as int + 32) as char else c }

  /** `String.lowercased()`. */
  function Lower(s: string): string { seq(|s|, i requires 0 <= i < |s| => ToLower(s[i])) }

  /** No character of `p` is a separator. */
  predicate NoSeparator(p: string, isSep: char -> bool)
  {
    forall j :: 0 <= j < |p| ==> !isSep(p[j])
  }

  /**
   * `components(separatedBy:)`: the runs between separators, including the
   * empty runs before, between and after separators.
   */
  function Split(s: string, isSep: char -> bool): (parts: seq<string>)
    ensures |parts| >= 1
  {
    if s == [] then [[]]
    else
      var rest := Split(s[1..], isSep);
      if isSep(s[0]) then [[]] + rest else [[s[0]] + rest[0]] + rest[1..]
  }

  /** The separator characters of `s`, in order. */
  function Separators(s: string, isSep: char -> bool): string
  {
    if s == [] then [] else (if isSep(s[0]) then [s[0]] else []) + Separators(s[1..], isSep)
  }

  /** parts[0] + [seps[0]] + parts[1] + ... + [seps[n-1]] + parts[n]. */
  function Interleave(parts: seq<string>, seps: string): string
    requires |parts| == |seps| + 1
  {
    if seps == [] then parts[0] else parts[0] + [seps[0]] + Interleave(parts[1..], seps[1..])
  }

  /** `joined(separator:)`; the empty list joins to the empty string. */
  function Join(parts: seq<string>, sep: string): string
  {
    if parts == [] then [] else if |parts| == 1 then parts[0] else parts[0] + sep + Join(parts[1..], sep)
  }

  lemma InterleaveHead(parts: seq<string>, seps: string, pre: string)
    requires |parts| == |seps| + 1
    ensures Interleave([pre + parts[0]] + parts[1..], seps) == pre + Interleave(parts, seps)
  {
  }

  /** Splitting loses nothing: putting the separators back between the parts gives `s`. */
  lemma {:induction false} SplitRoundTrip(s: string, isSep: char -> bool)
    ensures |Split(s, isSep)| == |Separators(s, isSep)| + 1
    ensures Interleave(Split(s, isSep), Separators(s, isSep)) == s
  {
    if s != [] {
      SplitRoundTrip(s[1..], isSep);
      var rest := Split(s[1..], isSep);
      var seps := Separators(s[1..], isSep);
      if isSep(s[0]) {
        assert ([[]] + rest)[1..] == rest;
        assert ([s[0]] + seps)[1..] == seps;
        assert s == [s[0]] + s[1..];
      } else {
        assert Separators(s, isSep) == seps;
        InterleaveHead(rest, seps, [s[0]]);
        assert s == [s[0]] + s[1..];
      }
    }
  }

  /** No part of a split contains a separator. */
  lemma {:induction false} SplitPartsHaveNoSeparator(s: string, isSep: char -> bool)
    ensures forall p :: p in Split(s, isSep) ==> NoSeparator(p, isSep)
  {
    if s != [] {
      SplitPartsHaveNoSeparator(s[1..], isSep);
      var rest := Split(s[1..], isSep);
      if !isSep(s[0]) {
        assert rest[0] in rest;
        forall p | p in rest[1..] ensures p in rest { }
      }
    }
  }

  /** Every character of a part is a character of `s`. */
  lemma {:induction false} SplitPartsComeFromString(s: string, isSep: char -> bool)
    ensures forall p :: p in Split(s, isSep) ==> forall j :: 0 <= j < |p| ==> p[j] in s
  {
    if s != [] {
      SplitPartsComeFromString(s[1..], isSep);
      var rest := Split(s[1..], isSep);
      assert forall c :: c in s[1..] ==> c in s;
      if !isSep(s[0]) {
        assert rest[0] in rest;
        forall p | p in rest[1..] ensures p in rest { }
      }
    }
  }

  /** Every separator of `s` is a separator. */
  lemma {:induction false} SeparatorsAreSeparators(s: string, isSep: char -> bool)
    ensures forall i :: 0 <= i < |Separators(s, isSep)| ==> isSep(Separators(s, isSep)[i])
  {
    if s != [] {
      SeparatorsAreSeparators(s[1..], isSep);
    }
  }

  /** A string has no separator exactly when its list of separators is empty. */
  lemma {:induction false} SeparatorsEmpty(s: string, isSep: char -> bool)
    ensures Separators(s, isSep) == [] <==> NoSeparator(s, isSep)
  {
    if s != [] {
      SeparatorsEmpty(s[1..], isSep);
      assert NoSeparator(s, isSep) <==> !isSep(s[0]) && NoSeparator(s[1..], isSep);
    }
  }

  /** Splitting on spaces and joining with one space gives the string back. */
  lemma JoinSplitSpaces(s: string)
    ensures Join(Split(s, IsSpace), " ") == s
  {
  }

  /** A prefix free of separators extends the first part. */
  lemma {:induction false} SplitPrefix(p: string, x: string, isSep: char -> bool)
    requires NoSeparator(p, isSep)
    ensures Split(p + x, isSep) == [p + Split(x, isSep)[0]] + Split(x, isSep)[1..]
  {
    if p == [] {
      var parts := Split(x, isSep);
      assert p + x == x;
      assert p + parts[0] == parts[0];
      assert [parts[0]] + parts[1..] == parts;
    } else {
      assert (p + x)[1..] == p[1..] + x;
      SplitPrefix(p[1..], x, isSep);
      assert [p[0]] + (p[1..] + Split(x, isSep)[0]) == p + Split(x, isSep)[0];
    }
  }

  /** A separator-free prefix followed by a separator is the first part. */
  lemma SplitAfterPrefix(p: string, c: char, x: string, isSep: char -> bool)
    requires NoSeparator(p, isSep) && isSep(c)
    ensures Split(p + [c] + x, isSep) == [p] + Split(x, isSep)
  {
    assert ([c] + x)[1..] == x;
    assert Split([c] + x, isSep) == [[]] + Split(x, isSep);
    SplitPrefix(p, [c] + x, isSep);
    assert p + [c] + x == p + ([c] + x);
    assert p + [] == p;
  }

  /** Joining parts free of the separator with that separator splits back into the parts. */
  lemma {:induction false} SplitJoin(parts: seq<string>, c: char, isSep: char -> bool)
    requires |parts| >= 1 && isSep(c)
    requires forall p :: p in parts ==> NoSeparator(p, isSep)
    ensures Split(Join(parts, [c]), isSep) == parts
  {
    assert parts[0] in parts;
    if |parts| == 1 {
      SplitPrefix(parts[0], [], isSep);
      assert parts[0] + [] == parts[0];
    } else {
      var tail := Join(parts[1..], [c]);
      forall p | p in parts[1..] ensures NoSeparator(p, isSep) { assert p in parts; }
      SplitJoin(parts[1..], c, isSep);
      assert ([c] + tail)[1..] == tail;
      var rest := Split([c] + tail, isSep);
      assert rest == [[]] + parts[1..];
      assert rest[0] == [] && rest[1..] == parts[1..];
      SplitPrefix(parts[0], [c] + tail, isSep);
      assert parts[0] + rest[0] == parts[0];
      assert parts[0] + [c] + tail == parts[0] + ([c] + tail);
      assert [parts[0]] + parts[1..] == parts;
    }
  }

  /**
   * `replacingOccurrences(of: String(c), with: "")`: no `c` is left and
   * exactly the occurrences of `c` are gone; `RemoveAllKeepsOthers` and
   * `RemoveAllConcat` say that the other characters all survive, in order.
   */
  function RemoveAll(s: string, c: char): (r: string)
    ensures forall j :: 0 <= j < |r| ==> r[j] != c
    ensures |r| + multiset(s)[c] == |s|
  {
    if s == [] then []
    else
      assert s == [s[0]] + s[1..];
      (if s[0] == c then [] else [s[0]]) + RemoveAll(s[1..], c)
  }

  /** Every character other than `c` keeps its number of occurrences. */
  lemma {:induction false} RemoveAllKeepsOthers(s: string, c: char)
    ensures forall x :: x != c ==> multiset(RemoveAll(s, c))[x] == multiset(s)[x]
  {
    if s != [] {
      RemoveAllKeepsOthers(s[1..], c);
      assert s == [s[0]] + s[1..];
    }
  }

  /** Removal works character by character: it distributes over concatenation. */
  lemma {:induction false} RemoveAllConcat(a: string, b: string, c: char)
    ensures RemoveAll(a + b, c) == RemoveAll(a, c) + RemoveAll(b, c)
  {
    if a != [] {
      var ab := a + b;
      assert ab[0] == a[0] && ab[1..] == a[1..] + b;
      RemoveAllConcat(a[1..], b, c);
      var head := if a[0] == c then [] else [a[0]];
      calc {
        RemoveAll(ab, c);
        head + RemoveAll(a[1..] + b, c);
        head + (RemoveAll(a[1..], c) + RemoveAll(b, c));
        (head + RemoveAll(a[1..], c)) + RemoveAll(b, c);
        RemoveAll(a, c) + RemoveAll(b, c);
      }
    } else {
      assert a + b == b;
    }
  }

  /** A single character is dropped exactly when it is `c`. */
  lemma RemoveAllChar(x: char, c: char)
    ensures RemoveAll([x], c) == if x == c then [] else [x]
  {
    assert [x][1..] == [];
  }

  /** The smallest and the largest value of Swift's 64-bit `Int`. */
  const IntMin := -0x8000_0000_0000_0000
  const IntMax := 0x7fff_ffff_ffff_ffff

  predicate AllDigits(s: string) { forall i :: 0 <= i < |s| ==> IsDigit(s[i]) }

  function DigitValue(c: char): nat
    requires IsDigit(c)
  {
    c as int - '0' as int
  }

  function DigitChar(d: nat): char
    requires d < 10
  {
    ('0' as int + d) as char
  }

  function DigitsValue(s: string): nat
    requires AllDigits(s)
  {
    if s == [] then 0 else DigitsValue(s[..|s| - 1]) * 10 + DigitValue(s[|s| - 1])
  }

  /**
   * `Int(String)`: an optional `+` or `-` followed by one or more decimal
   * digits, whose value fits in a 64-bit `Int`; anything else is `nil`.
   */
  function ParseInt(s: string): Option<int>
  {
    var negative := |s| > 0 && s[0] == '-';
    var digits := if |s| > 0 && (s[0] == '+' || s[0] == '-') then s[1..] else s;
    if digits == [] || !AllDigits(digits) then None
    else
      var v: int := if negative then -(DigitsValue(digits) as int) else DigitsValue(digits);
      if IntMin <= v <= IntMax then Some(v) else None
  }

  function ShowNat(n: nat): (r: string)
    ensures |r| >= 1 && AllDigits(r)
  {
    if n < 10 then [DigitChar(n)] else ShowNat(n / 10) + [DigitChar(n % 10)]
  }

  /** `String(n)`: decimal digits, after a `-` when `n` is negative. */
  function ShowInt(n: int): string
  {
    if n < 0 then "-" + ShowNat(-n) else ShowNat(n)
  }

  lemma {:induction false} DigitsValueShowNat(n: nat)
    ensures DigitsValue(ShowNat(n)) == n
  {
    if n >= 10 {
      DigitsValueShowNat(n / 10);
      var s := ShowNat(n);
      assert s[..|s| - 1] == ShowNat(n / 10);
    }
  }

  /** Every `Int` parses back from its decimal rendering. */
  lemma ParseShowRoundTrip(n: int)
    requires IntMin <= n <= IntMax
    ensures ParseInt(ShowInt(n)) == Some(n)
  {
    if n < 0 {
      DigitsValueShowNat(-n);
      assert ("-" + ShowNat(-n))[1..] == ShowNat(-n);
    } else {
      DigitsValueShowNat(n);
    }
  }
}
