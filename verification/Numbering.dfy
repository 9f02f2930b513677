/**
 A codec that satisfies the laws assumed of JSON for the values of any given list: the
 i-th value is written as {, then i ones, then }.
 */
module Numbering {
  import opened Wrappers
  import opened Text

  function Code(i: nat): string { "{" + seq(i, _ => '1') + "}" }

  // The first place of a value in the list, or the length of the list.
  ghost function Place<E>(es: seq<E>, e: E): (i: nat)
    ensures e in es ==> i < |es| && es[i] == e
    ensures e !in es ==> i == |es|
  {
    if es == [] || es[0] == e then 0 else Place(es[1..], e) + 1
  }

  ghost function Written<E>(es: seq<E>, e: E): Option<string> {
    if e in es then Some(Code(Place(es, e))) else None
  }

  function Read<E>(es: seq<E>, s: string): Option<E> {
    if |s| >= 2 && |s| - 2 < |es| && s == Code(|s| - 2) then Some(es[|s| - 2]) else None
  }

  lemma CodeShape(i: nat)
    ensures var s := Code(i);
      && |s| == i + 2 && s[0] == '{' && s[i + 1] == '}' && (forall k :: 1 <= k <= i ==> s[k] == '1')
      && NoBreak(s) && !Blank(s)
  {
    var s := Code(i);
    assert !Space(s[0]);
  }

  lemma CodePrefix(i: nat, k: nat, j: nat)
    requires k < |Code(i)|
    ensures Code(i)[..k] != Code(j)
  {
    CodeShape(i);
    CodeShape(j);
    if k == j + 2 {
      assert Code(i)[..k][k - 1] == '1' && Code(j)[k - 1] == '}';
    }
  }

  lemma CodeGlued(i: nat, j: nat, k: nat, n: nat)
    requires 0 < k <= |Code(j)|
    ensures Code(i) + Code(j)[..k] != Code(n)
  {
    CodeShape(i);
    CodeShape(j);
    CodeShape(n);
    if n == i + k {
      assert (Code(i) + Code(j)[..k])[i + 2] == '{' && Code(n)[i + 2] != '{';
    }
  }

  lemma WrittenReads<E>(es: seq<E>, e: E)
    requires e in es
    ensures var s := Written(es, e).value;
      Read(es, s) == Some(e) && NoBreak(s) && !Blank(s) && s[0] == '{'
  {
    CodeShape(Place(es, e));
  }

  lemma PrefixRefused<E>(es: seq<E>, e: E, k: nat)
    requires e in es && k < |Written(es, e).value|
    ensures Read(es, Written(es, e).value[..k]).None?
  {
    CodeShape(Place(es, e));
    if k >= 2 { CodePrefix(Place(es, e), k, k - 2); }
  }

  lemma GluedRefused<E>(es: seq<E>, a: E, b: E, k: nat)
    requires a in es && b in es && 0 < k <= |Written(es, b).value|
    ensures Read(es, Written(es, a).value + Written(es, b).value[..k]).None?
  {
    CodeShape(Place(es, a));
    CodeGlued(Place(es, a), Place(es, b), k, Place(es, a) + k);
  }
}
