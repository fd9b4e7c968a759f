/**
 * The result aggregator: merging the findings of every scanned target into one list in
 * which no two findings share a package name and version.
 */
module Aggregate {
  import opened Strings

  /**
   * One finding. Its identity is the package name and version; `display` stands for what
   * the finding's `String()` method returns, whose definition is not part of this model.
   */
  datatype VulnReport = VulnReport(packageName: string, version: string, display: string)

  type Key = (string, string)

  function KeyOf(v: VulnReport): Key
  {
    (v.packageName, v.version)
  }

  /** The keys of the findings in `vulns`. */
  function Keys(vulns: seq<VulnReport>): set<Key>
  {
    set i | 0 <= i < |vulns| :: KeyOf(vulns[i])
  }

  predicate NoDuplicateKeys(vulns: seq<VulnReport>)
  {
    forall i, j :: 0 <= i < j < |vulns| ==> KeyOf(vulns[i]) != KeyOf(vulns[j])
  }

  /** Two findings are duplicates when they name the same package at the same version. */
  predicate SameKey(a: VulnReport, b: VulnReport)
  {
    KeyOf(a) == KeyOf(b)
  }

  /** `vulnExists`: some finding in `totalVulns` has the package name and version of `vuln`. */
  function VulnExists(totalVulns: seq<VulnReport>, vuln: VulnReport): (found: bool)
    ensures found <==> exists i :: 0 <= i < |totalVulns| && SameKey(totalVulns[i], vuln)
  {
    if totalVulns == [] then false
    else if SameKey(totalVulns[0], vuln) then true
    else
      var found := VulnExists(totalVulns[1..], vuln);
      assert found ==> exists i :: 1 <= i < |totalVulns| && KeyOf(totalVulns[i]) == KeyOf(vuln) by {
        if found {
          var i :| 0 <= i < |totalVulns[1..]| && KeyOf(totalVulns[1..][i]) == KeyOf(vuln);
          assert totalVulns[i + 1] == totalVulns[1..][i];
        }
      }
      found
  }

  /** The search is a membership test on keys. */
  lemma VulnExistsIsKeyMembership(totalVulns: seq<VulnReport>, vuln: VulnReport)
    ensures VulnExists(totalVulns, vuln) <==> KeyOf(vuln) in Keys(totalVulns)
  {
    if KeyOf(vuln) in Keys(totalVulns) {
      var i :| 0 <= i < |totalVulns| && KeyOf(totalVulns[i]) == KeyOf(vuln);
      assert SameKey(totalVulns[i], vuln);
    }
  }

  lemma KeysAppend(a: seq<VulnReport>, b: seq<VulnReport>)
    ensures Keys(a + b) == Keys(a) + Keys(b)
  {
    forall k | k in Keys(a) ensures k in Keys(a + b) {
      var i :| 0 <= i < |a| && KeyOf(a[i]) == k;
      assert (a + b)[i] == a[i];
    }
    forall k | k in Keys(a + b) ensures k in Keys(a) + Keys(b) {
      var i :| 0 <= i < |a + b| && KeyOf((a + b)[i]) == k;
      if i >= |a| { assert b[i - |a|] == (a + b)[i]; }
    }
    forall k | k in Keys(b) ensures k in Keys(a + b) {
      var i :| 0 <= i < |b| && KeyOf(b[i]) == k;
      assert (a + b)[|a| + i] == b[i];
    }
  }

  /** All the findings of the per-target results, in the order the results are given. */
  function Flatten(results: seq<seq<VulnReport>>): seq<VulnReport>
  {
    if results == [] then [] else results[0] + Flatten(results[1..])
  }

  // ---------------------------------------------------------------------
  // The merge loop and an independent description of what it computes

  /** The merge loop as written: append each finding whose key is not in the list yet. */
  function MergeInto(totalVulns: seq<VulnReport>, incoming: seq<VulnReport>): seq<VulnReport>
    decreases |incoming|
  {
    if incoming == [] then totalVulns
    else
      var v := incoming[0];
      MergeInto(if !VulnExists(totalVulns, v) then totalVulns + [v] else totalVulns, incoming[1..])
  }

  /** The first finding of each key not in `seen`, in the order the keys first appear. */
  function FirstOccurrences(vulns: seq<VulnReport>, seen: set<Key>): (r: seq<VulnReport>)
    ensures Keys(r) == Keys(vulns) - seen
    ensures NoDuplicateKeys(r)
    ensures forall v :: v in r ==> v in vulns
  {
    if vulns == [] then []
    else
      var k := KeyOf(vulns[0]);
      var rest := FirstOccurrences(vulns[1..], seen + {k});
      KeysAppend([vulns[0]], vulns[1..]);
      assert vulns == [vulns[0]] + vulns[1..];
      if k in seen then
        var r := FirstOccurrences(vulns[1..], seen);
        r
      else
        KeysAppend([vulns[0]], rest);
        assert k !in Keys(rest);
        [vulns[0]] + rest
  }

  /** The merge loop keeps what it had and adds the first finding of each new key. */
  lemma {:induction false} MergeIntoIsFirstOccurrences(totalVulns: seq<VulnReport>, incoming: seq<VulnReport>)
    ensures MergeInto(totalVulns, incoming) == totalVulns + FirstOccurrences(incoming, Keys(totalVulns))
    decreases |incoming|
  {
    if incoming != [] {
      var v := incoming[0];
      VulnExistsIsKeyMembership(totalVulns, v);
      if VulnExists(totalVulns, v) {
        MergeIntoIsFirstOccurrences(totalVulns, incoming[1..]);
      } else {
        MergeIntoIsFirstOccurrences(totalVulns + [v], incoming[1..]);
        KeysAppend(totalVulns, [v]);
        assert [v][0] == v;
        assert Keys([v]) == {KeyOf(v)};
      }
    }
  }

  /** The index of the first finding with key `k`, or `|vulns|` when there is none. */
  function FirstIndex(vulns: seq<VulnReport>, k: Key): (r: nat)
    ensures r <= |vulns|
    ensures r < |vulns| ==> KeyOf(vulns[r]) == k
    ensures forall j :: 0 <= j < r ==> KeyOf(vulns[j]) != k
    ensures r == |vulns| <==> k !in Keys(vulns)
  {
    if vulns == [] then 0
    else if KeyOf(vulns[0]) == k then 0
    else
      var r := 1 + FirstIndex(vulns[1..], k);
      assert forall j :: 1 <= j < |vulns| ==> vulns[j] == vulns[1..][j - 1];
      KeysAppend([vulns[0]], vulns[1..]);
      assert vulns == [vulns[0]] + vulns[1..];
      r
  }

  /** First seen wins: every finding kept is the first one of its key. */
  lemma {:induction false} FirstSeenWins(vulns: seq<VulnReport>, seen: set<Key>, v: VulnReport)
    requires v in FirstOccurrences(vulns, seen)
    ensures KeyOf(v) in Keys(vulns) && v == vulns[FirstIndex(vulns, KeyOf(v))]
  {
    var k0 := KeyOf(vulns[0]);
    if k0 in seen {
      FirstSeenWins(vulns[1..], seen, v);
    } else if v != vulns[0] {
      FirstSeenWins(vulns[1..], seen + {k0}, v);
    }
    assert v in vulns;
  }

  /** The keys of `r` appear in `vulns` for the first time in the order they have in `r`. */
  predicate InFirstAppearanceOrder(vulns: seq<VulnReport>, r: seq<VulnReport>)
  {
    forall i, j :: 0 <= i < j < |r| ==> FirstIndex(vulns, KeyOf(r[i])) < FirstIndex(vulns, KeyOf(r[j]))
  }

  lemma FirstIndexShift(vulns: seq<VulnReport>, k: Key)
    requires vulns != [] && KeyOf(vulns[0]) != k
    ensures FirstIndex(vulns, k) == 1 + FirstIndex(vulns[1..], k)
  {
  }

  /** The findings kept are in the order in which their keys first appear. */
  lemma {:induction false} FirstOccurrencesInOrder(vulns: seq<VulnReport>, seen: set<Key>)
    ensures InFirstAppearanceOrder(vulns, FirstOccurrences(vulns, seen))
  {
    if vulns != [] {
      var k0 := KeyOf(vulns[0]);
      var r := FirstOccurrences(vulns, seen);
      var s := if k0 in seen then seen else seen + {k0};
      var rest := FirstOccurrences(vulns[1..], s);
      FirstOccurrencesInOrder(vulns[1..], s);
      forall i | 0 <= i < |rest|
        ensures FirstIndex(vulns, KeyOf(rest[i])) == 1 + FirstIndex(vulns[1..], KeyOf(rest[i]))
      {
        assert KeyOf(rest[i]) in Keys(rest);
        FirstIndexShift(vulns, KeyOf(rest[i]));
      }
      if k0 !in seen {
        assert r == [vulns[0]] + rest;
        assert FirstIndex(vulns, k0) == 0;
        forall i, j | 0 <= i < j < |r|
          ensures FirstIndex(vulns, KeyOf(r[i])) < FirstIndex(vulns, KeyOf(r[j]))
        {
          assert r[j] == rest[j - 1];
          if i > 0 {
            assert r[i] == rest[i - 1];
          }
        }
      }
    }
  }

  /** A list with no duplicate keys passes through the merge unchanged. */
  lemma {:induction false} FirstOccurrencesOfDistinct(vulns: seq<VulnReport>, seen: set<Key>)
    requires NoDuplicateKeys(vulns) && Keys(vulns) !! seen
    ensures FirstOccurrences(vulns, seen) == vulns
  {
    if vulns != [] {
      var k0 := KeyOf(vulns[0]);
      assert k0 in Keys(vulns);
      assert Keys(vulns[1..]) !! (seen + {k0}) by {
        forall k | k in Keys(vulns[1..]) ensures k !in seen + {k0} {
          var i :| 0 <= i < |vulns[1..]| && KeyOf(vulns[1..][i]) == k;
          assert vulns[i + 1] == vulns[1..][i];
        }
      }
      FirstOccurrencesOfDistinct(vulns[1..], seen + {k0});
    }
  }

  /** `totalVulns` after the merge loop has consumed `results` in the order given. */
  method Merge(results: seq<seq<VulnReport>>) returns (totalVulns: seq<VulnReport>)
    ensures totalVulns == FirstOccurrences(Flatten(results), {})
    ensures NoDuplicateKeys(totalVulns)
    ensures Keys(totalVulns) == Keys(Flatten(results))
  {
    totalVulns := [];
    for i := 0 to |results|
      invariant MergeInto(totalVulns, Flatten(results[i..])) == MergeInto([], Flatten(results))
    {
      var result := results[i];
      assert Flatten(results[i..]) == result + Flatten(results[i + 1..]) by {
        assert results[i..][1..] == results[i + 1..];
      }
      for j := 0 to |result|
        invariant MergeInto(totalVulns, result[j..] + Flatten(results[i + 1..])) == MergeInto([], Flatten(results))
      {
        var v := result[j];
        assert (result[j..] + Flatten(results[i + 1..]))[1..] == result[j + 1..] + Flatten(results[i + 1..]);
        if !VulnExists(totalVulns, v) {
          totalVulns := totalVulns + [v];
        }
      }
      assert result[|result|..] + Flatten(results[i + 1..]) == Flatten(results[i + 1..]);
    }
    assert results[|results|..] == [];
    MergeIntoIsFirstOccurrences([], Flatten(results));
    assert Keys([]) == {};
  }

  // ---------------------------------------------------------------------
  // Order independence

  /** The keys of all findings are the keys of the individual results. */
  lemma {:induction false} KeysOfFlatten(results: seq<seq<VulnReport>>)
    ensures forall k :: k in Keys(Flatten(results)) <==> exists r :: r in results && k in Keys(r)
  {
    if results != [] {
      KeysOfFlatten(results[1..]);
      KeysAppend(results[0], Flatten(results[1..]));
      assert forall r :: r in results <==> r == results[0] || r in results[1..];
    }
  }

  /** A finding is among all the findings exactly when one of the results holds it. */
  lemma {:induction false} InFlatten(results: seq<seq<VulnReport>>, v: VulnReport)
    ensures v in Flatten(results) <==> exists r :: r in results && v in r
  {
    if results != [] {
      InFlatten(results[1..], v);
      assert forall r :: r in results <==> r == results[0] || r in results[1..];
    }
  }

  /** The merged key set depends only on which results arrive, not on their order. */
  lemma MergedKeysOrderIndependent(results: seq<seq<VulnReport>>, arrived: seq<seq<VulnReport>>)
    requires multiset(arrived) == multiset(results)
    ensures Keys(FirstOccurrences(Flatten(arrived), {})) == Keys(FirstOccurrences(Flatten(results), {}))
  {
    KeysOfFlatten(results);
    KeysOfFlatten(arrived);
    assert forall r :: r in arrived <==> r in results by {
      forall r ensures r in arrived <==> r in results {
        assert r in arrived <==> r in multiset(arrived);
        assert r in results <==> r in multiset(results);
      }
    }
  }

  /** Merging an already merged list changes nothing. */
  lemma MergeIdempotent(results: seq<seq<VulnReport>>)
    ensures var once := FirstOccurrences(Flatten(results), {});
      FirstOccurrences(Flatten([once]), {}) == once
  {
    var once := FirstOccurrences(Flatten(results), {});
    assert Flatten([once]) == once + Flatten([]);
    assert Flatten([once]) == once;
    FirstOccurrencesOfDistinct(once, {});
  }

  /** Two targets sharing one finding and each adding its own: three findings, the shared one kept once. */
  lemma MergeScenario(sharedA: VulnReport, sharedB: VulnReport, onlyA: VulnReport, onlyB: VulnReport)
    requires KeyOf(sharedA) == KeyOf(sharedB) == ("foo", "1.0")
    requires KeyOf(onlyA) != ("foo", "1.0") && KeyOf(onlyB) != ("foo", "1.0") && KeyOf(onlyA) != KeyOf(onlyB)
    ensures FirstOccurrences(Flatten([[sharedA, onlyA], [sharedB, onlyB]]), {}) == [sharedA, onlyA, onlyB]
  {
    var all := [sharedA, onlyA, sharedB, onlyB];
    assert Flatten([[sharedA, onlyA], [sharedB, onlyB]]) == all by {
      assert Flatten([[sharedB, onlyB]]) == [sharedB, onlyB] + Flatten([]);
    }
    var foo := KeyOf(sharedA);
    assert all[1..] == [onlyA, sharedB, onlyB];
    assert all[1..][1..] == [sharedB, onlyB];
    assert all[1..][1..][1..] == [onlyB];
    assert [onlyB][1..] == [];
    var s1: set<Key> := {} + {foo};
    var s2 := s1 + {KeyOf(onlyA)};
    var s3 := s2 + {KeyOf(onlyB)};
    assert foo in s2 && KeyOf(onlyB) !in s2;
    assert FirstOccurrences([onlyB], s2) == [onlyB] + FirstOccurrences([], s3);
    assert FirstOccurrences([sharedB, onlyB], s2) == FirstOccurrences([onlyB], s2);
    assert FirstOccurrences([onlyA, sharedB, onlyB], s1) == [onlyA] + FirstOccurrences([sharedB, onlyB], s2);
    assert FirstOccurrences(all, {}) == [sharedA] + FirstOccurrences([onlyA, sharedB, onlyB], s1);
  }

  /** Which instance of a shared key is kept does depend on the arrival order. */
  lemma RetainedInstanceDependsOnOrder(first: VulnReport, second: VulnReport)
    requires KeyOf(first) == KeyOf(second) && first != second
    ensures FirstOccurrences(Flatten([[first], [second]]), {}) == [first]
    ensures FirstOccurrences(Flatten([[second], [first]]), {}) == [second]
  {
    assert Flatten([[first], [second]]) == [first, second] by {
      assert Flatten([[second]]) == [second] + Flatten([]);
    }
    assert Flatten([[second], [first]]) == [second, first] by {
      assert Flatten([[first]]) == [first] + Flatten([]);
    }
    var k := KeyOf(first);
    var seen: set<Key> := {} + {k};
    assert [first, second][1..] == [second] && [second, first][1..] == [first];
    assert [first][1..] == [] && [second][1..] == [];
    assert FirstOccurrences([second], seen) == [];
    assert KeyOf([first][0]) in seen;
    assert FirstOccurrences([first], seen) == [];
    assert FirstOccurrences([first, second], {}) == [first] + FirstOccurrences([second], seen);
    assert FirstOccurrences([second, first], {}) == [second] + FirstOccurrences([first], seen);
  }
}
