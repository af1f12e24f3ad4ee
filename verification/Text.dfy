/** Splitting and joining on a separator, and decimal numbers, as the Go library does them. */
module Text {
  import opened Common

  const MAX_INT: int := 0x7fff_ffff_ffff_ffff

  function Split(text: string, sep: char): (parts: seq<string>)
    ensures |parts| >= 1
  {
    if text == [] then [""]
    else
      var rest := Split(text[1..], sep);
      if text[0] == sep then [""] + rest else [[text[0]] + rest[0]] + rest[1..]
  }

  function Join(parts: seq<string>, sep: char): string {
    if parts == [] then ""
    else if |parts| == 1 then parts[0]
    else parts[0] + [sep] + Join(parts[1..], sep)
  }

  lemma {:induction false} SplitWhole(part: string, sep: char)
    requires sep !in part
    ensures Split(part, sep) == [part]
    decreases |part|
  {
    if part != [] {
      assert part[0] in part;
      SplitWhole(part[1..], sep);
      assert part == [part[0]] + part[1..];
    }
  }

  lemma {:induction false} SplitFirst(part: string, sep: char, rest: string)
    requires sep !in part
    ensures Split(part + [sep] + rest, sep) == [part] + Split(rest, sep)
    decreases |part|
  {
    var text := part + [sep] + rest;
    if part == [] {
      assert text[1..] == rest;
    } else {
      assert part[0] in part;
      assert text[1..] == part[1..] + [sep] + rest;
      assert part == [part[0]] + part[1..];
      SplitFirst(part[1..], sep, rest);
    }
  }

  lemma {:induction false} SplitUndoesJoin(parts: seq<string>, sep: char)
    requires parts != [] && forall i :: 0 <= i < |parts| ==> sep !in parts[i]
    ensures Split(Join(parts, sep), sep) == parts
    decreases |parts|
  {
    if |parts| == 1 {
      SplitWhole(parts[0], sep);
    } else {
      SplitUndoesJoin(parts[1..], sep);
      SplitFirst(parts[0], sep, Join(parts[1..], sep));
    }
  }

  function Itoa(n: nat): string {
    (if n < 10 then [] else Itoa(n / 10)) + [DigitChar(n % 10)]
  }

  function DigitChar(d: nat): (c: char)
    requires d < 10
    ensures IsDigit(c) && DigitOf(c) == d
  {
    match d
    case 0 => '0' case 1 => '1' case 2 => '2' case 3 => '3' case 4 => '4'
    case 5 => '5' case 6 => '6' case 7 => '7' case 8 => '8' case 9 => '9'
  }

  function DigitOf(c: char): nat
    requires IsDigit(c)
  {
    c as int - '0' as int
  }

  predicate IsDigit(c: char) {
    '0' <= c <= '9'
  }

  function Digits(text: string): Option<nat> {
    if text == [] then Some(0)
    else
      var last, before := text[|text| - 1], Digits(text[..|text| - 1]);
      if before.None? || !IsDigit(last) then None else Some(before.value * 10 + DigitOf(last))
  }

  /** An optional sign, at least one digit, and a value that fits 64 bits. */
  function Atoi(text: string): Option<int> {
    var signed := text != [] && (text[0] == '+' || text[0] == '-');
    var digits := if signed then text[1..] else text;
    var n := Digits(digits);
    if digits == [] || n.None? then None
    else
      var magnitude: int := n.value;
      var value := if signed && text[0] == '-' then -magnitude else magnitude;
      if -MAX_INT - 1 <= value <= MAX_INT then Some(value) else None
  }

  lemma {:induction false} DigitsOfItoa(n: nat)
    ensures Digits(Itoa(n)) == Some(n)
    ensures Itoa(n) != [] && forall i :: 0 <= i < |Itoa(n)| ==> IsDigit(Itoa(n)[i])
    decreases n
  {
    var rest := if n < 10 then [] else Itoa(n / 10);
    if n >= 10 {
      DigitsOfItoa(n / 10);
    }
    DigitsSnoc(rest, n / 10, DigitChar(n % 10));
  }

  lemma DigitsSnoc(text: string, value: nat, last: char)
    requires Digits(text) == Some(value) && IsDigit(last)
    ensures Digits(text + [last]) == Some(value * 10 + DigitOf(last))
  {
    assert (text + [last])[..|text|] == text;
  }

  lemma AtoiUndoesItoa(n: nat)
    requires n <= MAX_INT
    ensures Atoi(Itoa(n)) == Some(n)
  {
    DigitsOfItoa(n);
  }
}
