/** The universe filter and the batch-runner plumbing that both Korean-market
    screeners share: which listed codes are screened, which market cap each is
    screened with, and how the per-instrument results are collected. The
    market-data lookups are parameters: `nameOf` is the ticker-name lookup,
    `capOf` the market-cap history of one code on the run date. */
module Universe {
  import opened Series

  /** Python's `sub in s` on strings: sub occurs somewhere in s. */
  predicate IsInfix(sub: string, s: string) {
    sub <= s || (s != [] && IsInfix(sub, s[1..]))
  }

  /** Preferred-share codes end in 5, 7 or 9; names with 우 are preferred
      shares too, names with 스팩 are SPACs, and codes starting 43 form the
      excluded administrative range. */
  predicate IsEligible(code: string, name: string) {
    !(|code| > 0 && code[|code| - 1] in "579")
    && !IsInfix("우", name)
    && !IsInfix("스팩", name)
    && !("43" <= code)
  }

  /** sub occupies the window of s that starts at i. */
  predicate OccursAt(sub: string, s: string, i: int) {
    0 <= i <= |s| - |sub| && s[i..i + |sub|] == sub
  }

  /** `sub in s` holds exactly when sub occupies some window of s. */
  lemma {:induction false} IsInfixIff(sub: string, s: string)
    ensures IsInfix(sub, s) <==> exists i :: OccursAt(sub, s, i)
  {
    if sub <= s {
      assert OccursAt(sub, s, 0);
    }
    if s != [] {
      IsInfixIff(sub, s[1..]);
      if IsInfix(sub, s[1..]) {
        var j :| OccursAt(sub, s[1..], j);
        assert s[j + 1..j + 1 + |sub|] == s[1..][j..j + |sub|];
        assert OccursAt(sub, s, j + 1);
      }
      if exists i :: OccursAt(sub, s, i) {
        var i :| OccursAt(sub, s, i);
        if i == 0 {
          assert sub <= s;
        } else {
          assert s[1..][i - 1..i - 1 + |sub|] == s[i..i + |sub|];
          assert OccursAt(sub, s[1..], i - 1);
        }
      }
    } else {
      if exists i :: OccursAt(sub, s, i) {
        var i :| OccursAt(sub, s, i);
        assert sub == [];
      }
    }
  }

  /** Eligibility spelled out on characters: the code does not end in 5, 7
      or 9, does not start with 4 then 3, and the name contains neither 우
      nor 스팩 at any position. */
  lemma EligibleIff(code: string, name: string)
    ensures IsEligible(code, name) <==>
      (|code| == 0 || (code[|code| - 1] != '5' && code[|code| - 1] != '7' && code[|code| - 1] != '9')) &&
      !(|code| >= 2 && code[0] == '4' && code[1] == '3') &&
      !(exists i :: OccursAt("우", name, i)) &&
      !(exists i :: OccursAt("스팩", name, i))
  {
    IsInfixIff("우", name);
    IsInfixIff("스팩", name);
    if |code| >= 2 && code[0] == '4' && code[1] == '3' {
      assert "43" == code[..2];
    }
  }

  /** The codes the filter loop keeps, in the order it appends them. */
  function Survivors(codes: seq<string>, nameOf: string -> string): seq<string> {
    if codes == [] then []
    else
      var earlier := Survivors(codes[..|codes| - 1], nameOf);
      var code := Last(codes);
      if IsEligible(code, nameOf(code)) then earlier + [code] else earlier
  }

  /** The `filtered_stocks` loop: each code is looked up by name and appended
      when it is eligible. */
  method FilterUniverse(codes: seq<string>, nameOf: string -> string) returns (filtered: seq<string>)
    ensures filtered == Survivors(codes, nameOf)
  {
    filtered := [];
    for i := 0 to |codes|
      invariant filtered == Survivors(codes[..i], nameOf)
    {
      var code := codes[i];
      var name := nameOf(code);
      assert codes[..i + 1][..i] == codes[..i];
      if IsEligible(code, name) {
        filtered := filtered + [code];
      }
    }
    assert codes[..|codes|] == codes;
  }

  /** A code survives exactly when it was listed and is eligible. */
  lemma {:induction false} SurvivorMembership(codes: seq<string>, nameOf: string -> string, c: string)
    ensures c in Survivors(codes, nameOf) <==> c in codes && IsEligible(c, nameOf(c))
  {
    if codes != [] {
      var init := codes[..|codes| - 1];
      SurvivorMembership(init, nameOf, c);
      assert codes == init + [Last(codes)];
    }
  }

  /** a is b with some elements left out, the rest kept in order. */
  predicate IsSubsequence<T(==)>(a: seq<T>, b: seq<T>) {
    if a == [] then true
    else if b == [] then false
    else (Last(a) == Last(b) && IsSubsequence(a[..|a| - 1], b[..|b| - 1]))
         || IsSubsequence(a, b[..|b| - 1])
  }

  /** The survivors keep the listing order of the universe. */
  lemma {:induction false} SurvivorsInOrder(codes: seq<string>, nameOf: string -> string)
    ensures IsSubsequence(Survivors(codes, nameOf), codes)
  {
    if codes != [] {
      var init := codes[..|codes| - 1];
      SurvivorsInOrder(init, nameOf);
      var s := Survivors(codes, nameOf);
      if s != [] && s == Survivors(init, nameOf) + [Last(codes)] {
        assert s[..|s| - 1] == Survivors(init, nameOf);
      }
    }
  }

  /** The `marcap_dict` the cap loop fills: a code whose cap history is
      non-empty maps to its latest value. */
  function CapTable(codes: seq<string>, capOf: string -> seq<int>): map<string, int> {
    if codes == [] then map[]
    else
      var table := CapTable(codes[..|codes| - 1], capOf);
      var code := Last(codes);
      if capOf(code) != [] then table[code := Last(capOf(code))] else table
  }

  method BuildCapTable(codes: seq<string>, capOf: string -> seq<int>) returns (caps: map<string, int>)
    ensures caps == CapTable(codes, capOf)
  {
    caps := map[];
    for i := 0 to |codes|
      invariant caps == CapTable(codes[..i], capOf)
    {
      var code := codes[i];
      var history := capOf(code);
      assert codes[..i + 1][..i] == codes[..i];
      if history != [] {
        caps := caps[code := Last(history)];
      }
    }
    assert codes[..|codes|] == codes;
  }

  /** The table holds exactly the listed codes with a cap history, each with
      its latest cap. */
  lemma {:induction false} CapTableEntries(codes: seq<string>, capOf: string -> seq<int>, c: string)
    ensures c in CapTable(codes, capOf) <==> c in codes && capOf(c) != []
    ensures c in CapTable(codes, capOf) ==> CapTable(codes, capOf)[c] == Last(capOf(c))
  {
    if codes != [] {
      var init := codes[..|codes| - 1];
      CapTableEntries(init, capOf, c);
      assert codes == init + [Last(codes)];
    }
  }

  /** `marcap_dict.get(code, 0)`. */
  function CapOrZero(caps: map<string, int>, code: string): int {
    if code in caps then caps[code] else 0
  }

  /** The (code, market cap) pairs handed to the workers, in filter order. */
  function AnalysisPairs(filtered: seq<string>, caps: map<string, int>): (pairs: seq<(string, int)>)
    ensures |pairs| == |filtered|
    ensures forall i :: 0 <= i < |pairs| ==> pairs[i].0 == filtered[i]
  {
    seq(|filtered|, i requires 0 <= i < |filtered| => (filtered[i], CapOrZero(caps, filtered[i])))
  }

  /** A code whose cap history is empty is screened with a cap of 0; otherwise
      with its latest cap. */
  lemma ScreenedCap(filtered: seq<string>, capOf: string -> seq<int>, i: nat)
    requires i < |filtered|
    ensures var p := AnalysisPairs(filtered, CapTable(filtered, capOf))[i];
            p.1 == if capOf(filtered[i]) == [] then 0 else Last(capOf(filtered[i]))
  {
    CapTableEntries(filtered, capOf, filtered[i]);
  }

  /** The workers' results, one per (code, market cap) pair, in order: the
      fan-out over the pairs, taken sequentially. */
  function Evaluate<R>(pairs: seq<(string, int)>, worker: (string, int) -> R): (results: seq<R>)
    ensures |results| == |pairs|
  {
    seq(|pairs|, i requires 0 <= i < |pairs| => worker(pairs[i].0, pairs[i].1))
  }

  /** `[r for r in results if r]` for results that are records: every
      non-None result, in input order. */
  function Somes<T>(results: seq<Option<T>>): seq<T> {
    if results == [] then []
    else
      var earlier := Somes(results[..|results| - 1]);
      match Last(results)
      case Some(r) => earlier + [r]
      case None => earlier
  }

  lemma {:induction false} SomesMembership<T>(results: seq<Option<T>>, r: T)
    ensures r in Somes(results) <==> Some(r) in results
  {
    if results != [] {
      var init := results[..|results| - 1];
      SomesMembership(init, r);
      assert results == init + [Last(results)];
    }
  }

  /** `[code for code in results if code]` for results that are codes: a
      returned code is kept when it is a non-empty string. */
  function SelectedCodes(results: seq<Option<string>>): seq<string> {
    if results == [] then []
    else
      var earlier := SelectedCodes(results[..|results| - 1]);
      match Last(results)
      case Some(code) => if code != "" then earlier + [code] else earlier
      case None => earlier
  }

  lemma {:induction false} SelectedCodesMembership(results: seq<Option<string>>, c: string)
    ensures c in SelectedCodes(results) <==> c != "" && Some(c) in results
  {
    if results != [] {
      var init := results[..|results| - 1];
      SelectedCodesMembership(init, c);
      assert results == init + [Last(results)];
    }
  }
}
