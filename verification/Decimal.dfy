// Decimal spelling of natural numbers, and suffixed names.
module Decimal {
  function Digit(d: nat): (c: char)
    requires d < 10
    ensures '0' <= c <= '9'
  {
    '0' + d as char
  }

  function Itoa(n: nat): (text: string)
    ensures |text| > 0
  {
    if n < 10 then [Digit(n)] else Itoa(n / 10) + [Digit(n % 10)]
  }

  function Atoi(text: string): (n: int) {
    if text == [] then 0
    else Atoi(text[..|text| - 1]) * 10 + (text[|text| - 1] as int - '0' as int)
  }

  lemma {:induction false} AtoiItoa(n: nat)
    ensures Atoi(Itoa(n)) == n
  {
    var text := Itoa(n);
    if n >= 10 {
      AtoiItoa(n / 10);
      assert text[..|text| - 1] == Itoa(n / 10);
    }
  }

  // The n-th candidate for a fresh name: the base itself, then base_1, ...
  function Candidate(base: string, n: nat): (name: string) {
    if n == 0 then base else base + "_" + Itoa(n)
  }

  lemma CandidatesDiffer(base: string, m: nat, n: nat)
    ensures Candidate(base, m) == Candidate(base, n) <==> m == n
  {
    assert m > 0 ==> |Candidate(base, m)| > |base|;
    assert n > 0 ==> |Candidate(base, n)| > |base|;
    if m > 0 && n > 0 {
      assert Candidate(base, m)[|base| + 1..] == Itoa(m);
      assert Candidate(base, n)[|base| + 1..] == Itoa(n);
      AtoiItoa(m);
      AtoiItoa(n);
    }
  }

  // If the first n candidates are all taken, at least n names are.
  lemma {:induction false} TakenCandidates(base: string, used: set<string>, n: nat)
    requires forall k: nat | k < n :: Candidate(base, k) in used
    ensures n <= |used|
    decreases n
  {
    if n > 0 {
      var last := Candidate(base, n - 1);
      forall k: nat | k < n - 1
        ensures Candidate(base, k) in used - {last}
      {
        CandidatesDiffer(base, k, n - 1);
      }
      TakenCandidates(base, used - {last}, n - 1);
    }
  }

  // The first free candidate from the n-th on.
  function FirstFree(base: string, used: set<string>, n: nat): (k: nat)
    requires forall i: nat | i < n :: Candidate(base, i) in used
    ensures Candidate(base, k) !in used && n <= k <= |used|
    ensures forall i: nat | i < k :: Candidate(base, i) in used
    decreases |used| - n
  {
    TakenCandidates(base, used, n);
    if Candidate(base, n) !in used then n
    else
      TakenCandidates(base, used, n + 1);
      FirstFree(base, used, n + 1)
  }

  // A name that is not used.
  function FreshName(base: string, used: set<string>): (name: string)
    ensures name !in used
    ensures base != "" ==> name != ""
  {
    Candidate(base, FirstFree(base, used, 0))
  }

  function Names(existing: seq<string>): (used: set<string>) {
    set name | name in existing
  }

  lemma {:induction false} NamesCount(existing: seq<string>)
    ensures |Names(existing)| <= |existing|
    decreases |existing|
  {
    if existing != [] {
      var rest := existing[..|existing| - 1];
      NamesCount(rest);
      assert existing == rest + [existing[|existing| - 1]];
      assert Names(existing) == Names(rest) + {existing[|existing| - 1]};
    }
  }

  // The search for a fresh name: at most len(existing) + 1 candidates are
  // tried.
  method UniqueName(base: string, existing: seq<string>) returns (name: string, tries: nat)
    ensures name == FreshName(base, Names(existing))
    ensures tries <= |existing| + 1
  {
    var used: set<string> := {};
    for i := 0 to |existing|
      invariant used == set k | 0 <= k < i :: existing[k]
    {
      used := used + {existing[i]};
    }
    assert used == Names(existing);
    NamesCount(existing);
    var suffix: nat := 0;
    while Candidate(base, suffix) in used
      invariant forall i: nat | i < suffix :: Candidate(base, i) in used
      invariant FirstFree(base, used, suffix) == FirstFree(base, used, 0)
      decreases |used| - suffix
    {
      TakenCandidates(base, used, suffix + 1);
      suffix := suffix + 1;
    }
    TakenCandidates(base, used, suffix);
    name, tries := Candidate(base, suffix), suffix + 1;
  }
}
