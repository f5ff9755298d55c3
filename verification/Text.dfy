/** The string operations several components share. */
module Text {
  predicate IsSpace(c: char) {
    || c == ' ' || '\t' <= c <= '\r' || c == '\U{85}' || c == '\U{A0}' || c == '\U{1680}'
    || '\U{2000}' <= c <= '\U{200A}' || c == '\U{2028}' || c == '\U{2029}' || c == '\U{202F}'
    || c == '\U{205F}' || c == '\U{3000}'
  }

  function TrimLeft(s: string): string {
    if s != "" && IsSpace(s[0]) then TrimLeft(s[1..]) else s
  }

  function TrimRight(s: string): string {
    if s != "" && IsSpace(s[|s| - 1]) then TrimRight(s[..|s| - 1]) else s
  }

  function Trim(s: string): string { TrimRight(TrimLeft(s)) }

  /** The characters that count as spaces, one by one. */
  lemma SpaceIs(c: char)
    ensures IsSpace(c) <==>
      (c as int) in {0x09, 0x0A, 0x0B, 0x0C, 0x0D, 0x20, 0x85, 0xA0, 0x1680, 0x2000, 0x2001, 0x2002, 0x2003, 0x2004,
                     0x2005, 0x2006, 0x2007, 0x2008, 0x2009, 0x200A, 0x2028, 0x2029, 0x202F, 0x205F, 0x3000}
  {
  }

  predicate AllSpace(s: string) { forall c | c in s :: IsSpace(c) }

  /** Text that starts and ends with something else than a space, or is empty. */
  predicate Unpadded(s: string) { s == "" || (!IsSpace(s[0]) && !IsSpace(s[|s| - 1])) }

  lemma {:induction false} TrimLeftIs(s: string) returns (left: string)
    ensures s == left + TrimLeft(s) && AllSpace(left) && (TrimLeft(s) == "" || !IsSpace(TrimLeft(s)[0]))
  {
    if s != "" && IsSpace(s[0]) {
      var rest := TrimLeftIs(s[1..]);
      left := [s[0]] + rest;
    } else {
      left := "";
    }
  }

  lemma {:induction false} TrimRightIs(s: string) returns (right: string)
    ensures s == TrimRight(s) + right && AllSpace(right)
    ensures TrimRight(s) == "" || !IsSpace(TrimRight(s)[|TrimRight(s)| - 1])
  {
    if s != "" && IsSpace(s[|s| - 1]) {
      var rest := TrimRightIs(s[..|s| - 1]);
      right := rest + [s[|s| - 1]];
    } else {
      right := "";
    }
  }

  /** Trimming takes away spaces at both ends, all of them, and nothing else. */
  lemma TrimIs(s: string) returns (left: string, right: string)
    ensures s == left + Trim(s) + right && AllSpace(left) && AllSpace(right) && Unpadded(Trim(s))
  {
    left := TrimLeftIs(s);
    right := TrimRightIs(TrimLeft(s));
    assert Trim(s) != "" ==> Trim(s)[0] == TrimLeft(s)[0];
  }

  lemma {:induction false} TrimLeftPadded(left: string, s: string)
    requires AllSpace(left) && s != "" && !IsSpace(s[0])
    ensures TrimLeft(left + s) == s
  {
    if left == "" {
      assert left + s == s;
    } else {
      assert left[0] in left && (left + s)[1..] == left[1..] + s;
      TrimLeftPadded(left[1..], s);
    }
  }

  lemma {:induction false} TrimRightPadded(s: string, right: string)
    requires AllSpace(right) && s != "" && !IsSpace(s[|s| - 1])
    ensures TrimRight(s + right) == s
    decreases |right|
  {
    if right == "" {
      assert s + right == s;
    } else {
      var n := |right| - 1;
      assert right[n] in right && (s + right)[..|s| + n] == s + right[..n];
      TrimRightPadded(s, right[..n]);
    }
  }

  lemma {:induction false} TrimRightKeeps(s: string, rest: string)
    requires s != "" && !IsSpace(s[|s| - 1])
    ensures s <= TrimRight(s + rest)
    decreases |rest|
  {
    if rest == "" {
      assert s + rest == s;
    } else {
      assert (s + rest)[..|s + rest| - 1] == s + rest[..|rest| - 1];
      TrimRightKeeps(s, rest[..|rest| - 1]);
    }
  }

  /** Padding is what trimming takes away: text between spaces is found again. */
  lemma TrimPadded(left: string, s: string, right: string)
    requires AllSpace(left) && AllSpace(right) && Unpadded(s) && s != ""
    ensures Trim(left + s + right) == s
  {
    assert left + s + right == left + (s + right);
    TrimLeftPadded(left, s + right);
    TrimRightPadded(s, right);
  }

  /** Lower case, letter by letter; how letters fold is up to the caller. */
  function Lower(fold: char -> char, s: string): string {
    if s == "" then "" else [fold(s[0])] + Lower(fold, s[1..])
  }

  function ReplaceChar(s: string, from: char, to: char): string {
    if s == "" then "" else [if s[0] == from then to else s[0]] + ReplaceChar(s[1..], from, to)
  }

  predicate Contains(s: string, part: string) {
    part <= s || (s != "" && Contains(s[1..], part))
  }

  /** Text cannot contain what has a character it does not have. */
  lemma {:induction false} LacksCharacter(s: string, part: string, c: char)
    requires c in part && c !in s
    ensures !Contains(s, part)
  {
    if s != "" { LacksCharacter(s[1..], part, c); }
  }

  /** The text is the part with something before and after it. */
  predicate Around(s: string, before: string, part: string, after: string) { s == before + part + after }

  lemma {:induction false} ContainsSplit(s: string, part: string) returns (before: string, after: string)
    requires Contains(s, part)
    ensures Around(s, before, part, after)
  {
    if part <= s {
      before, after := "", s[|part|..];
    } else {
      var rest;
      rest, after := ContainsSplit(s[1..], part);
      before := [s[0]] + rest;
    }
  }

  lemma {:induction false} SplitContains(before: string, part: string, after: string)
    ensures Contains(before + part + after, part)
  {
    var s := before + part + after;
    if before == "" {
      assert part <= s;
    } else {
      assert s[1..] == before[1..] + part + after;
      SplitContains(before[1..], part, after);
    }
  }

  /** Text contains a part exactly if the part stands somewhere in it. */
  lemma ContainsIff(s: string, part: string)
    ensures Contains(s, part) <==> exists before, after :: Around(s, before, part, after)
  {
    if Contains(s, part) {
      var before, after := ContainsSplit(s, part);
    }
    if before, after :| Around(s, before, part, after) { SplitContains(before, part, after); }
  }

  /** What contains a whole contains each part of it. */
  lemma ContainsPart(s: string, before: string, part: string, after: string)
    requires Contains(s, before + part + after)
    ensures Contains(s, part)
  {
    var b, a := ContainsSplit(s, before + part + after);
    assert s == (b + before) + part + (after + a);
    SplitContains(b + before, part, after + a);
  }

  lemma {:induction false} LowerAt(fold: char -> char, s: string, i: nat)
    requires i < |s|
    ensures |Lower(fold, s)| == |s| && Lower(fold, s)[i] == fold(s[i])
  {
    if |s| > 1 { LowerAt(fold, s[1..], if i == 0 then 0 else i - 1); }
  }

  lemma {:induction false} ReplacedAt(s: string, from: char, to: char, i: nat)
    requires i < |s|
    ensures |ReplaceChar(s, from, to)| == |s| && ReplaceChar(s, from, to)[i] == if s[i] == from then to else s[i]
  {
    if |s| > 1 { ReplacedAt(s[1..], from, to, if i == 0 then 0 else i - 1); }
  }

  lemma {:induction false} ReplacedConcat(a: string, b: string, from: char, to: char)
    ensures ReplaceChar(a + b, from, to) == ReplaceChar(a, from, to) + ReplaceChar(b, from, to)
  {
    if a == "" {
      assert a + b == b;
    } else {
      assert (a + b)[1..] == a[1..] + b;
      ReplacedConcat(a[1..], b, from, to);
    }
  }
}
