/**
 Text files seen as lines.  The only line break modelled is the newline, so a
 file is its lines joined by '\n', with an optional unterminated last line.
 */
module Text {
  import opened Lists

  predicate NoBreak(s: string) { '\n' !in s }

  predicate Space(ch: char) { ch == ' ' || ch == '\t' || ch == '\r' }

  predicate Blank(line: string) { forall i :: 0 <= i < |line| ==> Space(line[i]) }

  // The position of the first newline, or |s| when there is none.
  function FirstBreak(s: string): (i: nat)
    ensures i <= |s| && NoBreak(s[..i])
    ensures i < |s| ==> s[i] == '\n'
  {
    if s == "" || s[0] == '\n' then 0
    else
      var i := FirstBreak(s[1..]);
      assert s[..i + 1] == [s[0]] + s[1..][..i];
      i + 1
  }

  // Lines of a text, without their newlines; no empty line after a final newline.
  function Lines(s: string): seq<string>
    decreases |s|
  {
    var i := FirstBreak(s);
    if s == "" then []
    else if i == |s| then [s]
    else [s[..i]] + Lines(s[i + 1..])
  }

  // The text that holds exactly the given lines, each one terminated.
  function Unlines(ls: seq<string>): string {
    if ls == [] then "" else ls[0] + "\n" + Unlines(ls[1..])
  }

  function Breaks(s: string): nat {
    if s == "" then 0 else (if s[0] == '\n' then 1 else 0) + Breaks(s[1..])
  }

  lemma FirstBreakOf(a: string, b: string)
    requires NoBreak(a)
    ensures FirstBreak(a + "\n" + b) == |a|
  {
    var s := a + "\n" + b;
    var i := FirstBreak(s);
    assert s[..|a|] == a && s[|a|] == '\n';
    assert forall k :: 0 <= k < |a| ==> s[k] != '\n';
    assert forall k :: 0 <= k < i ==> s[k] == s[..i][k];
  }

  lemma LinesCons(a: string, b: string)
    requires NoBreak(a)
    ensures Lines(a + "\n" + b) == [a] + Lines(b)
  {
    FirstBreakOf(a, b);
    var s := a + "\n" + b;
    assert s[..|a|] == a;
    assert s[|a| + 1..] == b;
  }

  lemma LinesSingle(a: string)
    requires NoBreak(a) && a != ""
    ensures Lines(a) == [a]
  {
    assert FirstBreak(a) == |a|;
  }

  // Reading the lines of a joined text, with a possibly unterminated tail.
  lemma {:induction false} LinesOfUnlines(ls: seq<string>, tail: string)
    requires forall l :: l in ls ==> NoBreak(l)
    requires NoBreak(tail)
    ensures Lines(Unlines(ls) + tail) == ls + (if tail == "" then [] else [tail])
  {
    if ls == [] {
      assert Unlines(ls) + tail == tail;
      if tail != "" { LinesSingle(tail); }
    } else {
      var last := if tail == "" then [] else [tail];
      LinesOfUnlines(ls[1..], tail);
      UnlinesSplit(ls, tail);
      LinesCons(ls[0], Unlines(ls[1..]) + tail);
      FirstOfJoin(ls, last);
    }
  }

  lemma UnlinesSplit(ls: seq<string>, tail: string)
    requires ls != []
    ensures Unlines(ls) + tail == ls[0] + "\n" + (Unlines(ls[1..]) + tail)
  {
  }

  lemma {:induction false} UnlinesAppend(a: seq<string>, b: seq<string>)
    ensures Unlines(a + b) == Unlines(a) + Unlines(b)
  {
    if a == [] {
      assert a + b == b;
    } else {
      UnlinesAppend(a[1..], b);
      assert (a + b)[0] == a[0] && (a + b)[1..] == a[1..] + b;
    }
  }

  // ---------------------------------------------------------------- decimal numerals

  function Digits(n: nat): (s: string)
    ensures |s| >= 1 && (|s| == 1 <==> n < 10)
  {
    if n < 10 then [n as char + '0'] else Digits(n / 10) + [(n % 10) as char + '0']
  }

  function Decimal(i: int): string { if i < 0 then "-" + Digits(-i) else Digits(i) }

  lemma {:induction false} DigitsInjective(m: nat, n: nat)
    requires Digits(m) == Digits(n)
    ensures m == n
  {
    if m >= 10 {
      var s := Digits(m);
      assert s[..|s| - 1] == Digits(m / 10) && s[..|s| - 1] == Digits(n / 10);
      assert s[|s| - 1] == (m % 10) as char + '0' == (n % 10) as char + '0';
      DigitsInjective(m / 10, n / 10);
    } else {
      assert Digits(m)[0] == m as char + '0' == n as char + '0';
    }
  }
}
