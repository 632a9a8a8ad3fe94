/** Which desktop release an account is offered. */
module Releases {
  import opened Basics
  import opened Texts
  import opened SemVer
  import Canonical
  import VersionOrder

  datatype Release = Release(id: Bytes, version: Bytes, rolloutPercent: int)

  type Hash = seq<Byte> -> Sum

  // ---------------------------------------------------------------------------------------------
  // Staged rollout

  /** The cohort of an account for a release, from the first two bytes of the hash over both. */
  function Cohort(sha256: Hash, releaseId: Bytes, accountId: Bytes): (cohort: nat)
    ensures cohort < 100
  {
    var digest := sha256(Ascii("sesame-release-rollout-v1") + [0] + releaseId + [0] + accountId);
    var high: nat, low: nat := digest[0], digest[1];
    (high * 256 + low) % 100
  }

  predicate IncludedInRollout(sha256: Hash, releaseId: Bytes, accountId: Bytes, percent: int) {
    percent >= 100 || (percent > 0 && releaseId != [] && accountId != []
                       && Cohort(sha256, releaseId, accountId) < percent)
  }

  /** Widening a rollout keeps every account it had. */
  lemma RolloutOnlyGrows(sha256: Hash, releaseId: Bytes, accountId: Bytes, percent: int, wider: int)
    requires percent <= wider && IncludedInRollout(sha256, releaseId, accountId, percent)
    ensures IncludedInRollout(sha256, releaseId, accountId, wider)
  {
  }

  const ROLLOUT_LABEL: Bytes := Ascii("sesame-release-rollout-v1")

  /** What is hashed for a release and an account. */
  function RolloutInput(releaseId: Bytes, accountId: Bytes): Bytes {
    ROLLOUT_LABEL + [0] + releaseId + [0] + accountId
  }

  /** The cohort is the remainder by 100 of the first two hash bytes, read as a big-endian number. */
  lemma CohortIsRemainder(sha256: Hash, releaseId: Bytes, accountId: Bytes)
    ensures Cohort(sha256, releaseId, accountId) ==
            Canonical.FromBigEndian(sha256(RolloutInput(releaseId, accountId))[..2]) % 100
  {
    var digest := sha256(RolloutInput(releaseId, accountId));
    assert digest[..2] == [digest[0], digest[1]];
    assert [digest[0], digest[1]][..1] == [digest[0]];
    assert [digest[0]][..0] == [];
    assert Canonical.FromBigEndian([digest[0]]) == digest[0];
  }

  /** Different pairs of release and account are hashed from different bytes. */
  lemma RolloutInputInjective(r: Bytes, a: Bytes, s: Bytes, b: Bytes)
    requires 0 !in r && 0 !in s && RolloutInput(r, a) == RolloutInput(s, b)
    ensures r == s && a == b
  {
    var n := |ROLLOUT_LABEL| + 1;
    var x, y := r + [0] + a, s + [0] + b;
    assert RolloutInput(r, a)[n..] == x && RolloutInput(s, b)[n..] == y;
    FirstIndexAfter(r, 0, a);
    FirstIndexAfter(s, 0, b);
    assert x[..|r|] == r && y[..|s|] == s && x[|r| + 1..] == a && y[|s| + 1..] == b;
  }

  /** How many numbers below n have a remainder by 100 below the percentage. */
  function Selected(n: nat, percent: nat): nat {
    if n == 0 then 0 else Selected(n - 1, percent) + (if (n - 1) % 100 < percent then 1 else 0)
  }

  lemma SelectedSnoc(q: nat, r: nat, percent: nat)
    requires r < 100
    ensures Selected(100 * q + r + 1, percent) == Selected(100 * q + r, percent) + (if r < percent then 1 else 0)
  {
    assert (100 * q + r) % 100 == r;
  }

  lemma {:induction false} SelectedCount(q: nat, r: nat, percent: nat)
    requires r < 100 && percent <= 100
    ensures Selected(100 * q + r, percent) == percent * q + (if r < percent then r else percent)
    decreases q, r
  {
    if r > 0 {
      hide Selected;
      SelectedCount(q, r - 1, percent);
      SelectedSnoc(q, r - 1, percent);
    } else if q > 0 {
      hide Selected;
      SelectedCount(q - 1, 99, percent);
      SelectedSnoc(q - 1, 99, percent);
      assert percent * q == percent * (q - 1) + percent;
    }
  }

  /** Of the 65536 values of the two bytes a rollout of p percent selects 655 p, and one more for each of the first 36
      percent: never less than p percent of them, and less than 0.04 percentage points more. */
  lemma RolloutShare(percent: nat)
    requires percent <= 100
    ensures Selected(65536, percent) == 655 * percent + (if percent < 36 then percent else 36)
    ensures 65536 * percent <= 100 * Selected(65536, percent) < 65536 * percent + 2622
  {
    SelectedCount(655, 36, percent);
  }

  // ---------------------------------------------------------------------------------------------
  // Selection

  predicate Eligible(sha256: Hash, r: Release, current: Version, accountId: Bytes) {
    && Parse(r.version).Some?
    && VersionOrder.Compare(Parse(r.version).value, current) > 0
    && IncludedInRollout(sha256, r.id, accountId, r.rolloutPercent)
  }

  /** Candidate `k` is eligible, no eligible candidate is newer, and those before it are all older. */
  ghost predicate Highest(sha256: Hash, candidates: seq<Release>, current: Version, accountId: Bytes, k: nat)
  {
    && k < |candidates|
    && Eligible(sha256, candidates[k], current, accountId)
    && forall i | 0 <= i < |candidates| && Eligible(sha256, candidates[i], current, accountId) ::
         var order := VersionOrder.Compare(Parse(candidates[i].version).value, Parse(candidates[k].version).value);
         order <= 0 && (i < k ==> order < 0)
  }

  method HighestEligible(sha256: Hash, candidates: seq<Release>, current: Version, accountId: Bytes)
    returns (selected: Option<Release>)
    ensures selected.None? <==> forall i | 0 <= i < |candidates| :: !Eligible(sha256, candidates[i], current, accountId)
    ensures selected.Some? ==> exists k: nat ::
              Highest(sha256, candidates, current, accountId, k) && selected.value == candidates[k]
  {
    hide Parse, IncludedInRollout, VersionOrder.Compare;
    selected := None;
    ghost var at := 0;
    var selectedVersion := current;
    for i := 0 to |candidates|
      invariant selected.None? <==> forall k | 0 <= k < i :: !Eligible(sha256, candidates[k], current, accountId)
      invariant selected.Some? ==>
                at < i && selected.value == candidates[at] && Highest(sha256, candidates[..i], current, accountId, at)
      invariant selected.Some? ==> Parse(selected.value.version) == Some(selectedVersion)
    {
      assert candidates[..i + 1] == candidates[..i] + [candidates[i]];
      var candidate := candidates[i];
      var version := ParseVersion(candidate.version);
      if version.Some? {
        var order := VersionOrder.CompareVersions(version.value, current);
        if order > 0 && IncludedInRollout(sha256, candidate.id, accountId, candidate.rolloutPercent) {
          var better := selected.None?;
          if selected.Some? {
            var gain := VersionOrder.CompareVersions(version.value, selectedVersion);
            better := gain > 0;
          }
          if better {
            ghost var earlier := if selected.Some? then Some(selectedVersion) else None;
            HighestMoves(sha256, candidates[..i], current, accountId, at, candidate, earlier, version.value);
            selected, selectedVersion := Some(candidate), version.value;
            at := i;
          }
        }
      }
    }
    assert candidates[..|candidates|] == candidates;
  }

  /** A candidate above the highest so far, or the first eligible one, becomes the highest. */
  lemma HighestMoves(sha256: Hash, before: seq<Release>, current: Version, accountId: Bytes, at: nat,
                     candidate: Release, earlier: Option<Version>, version: Version)
    requires Eligible(sha256, candidate, current, accountId) && Parse(candidate.version) == Some(version)
    requires earlier.None? ==> forall i | 0 <= i < |before| :: !Eligible(sha256, before[i], current, accountId)
    requires earlier.Some? ==> Highest(sha256, before, current, accountId, at) && Parse(before[at].version) == earlier
                               && VersionOrder.Compare(version, earlier.value) > 0
    ensures Highest(sha256, before + [candidate], current, accountId, |before|)
  {
    hide Parse, IncludedInRollout, VersionOrder.Compare;
    VersionOrder.CompareIsPreorder();
    var all := before + [candidate];
    forall i | 0 <= i < |all| && Eligible(sha256, all[i], current, accountId)
      ensures var order := VersionOrder.Compare(Parse(all[i].version).value, version);
              order <= 0 && (i < |before| ==> order < 0)
    {
      var v := Parse(all[i].version).value;
      if i < |before| {
        assert VersionOrder.Compare(v, earlier.value) <= 0;
        Below(v, earlier.value, version);
      } else {
        assert VersionOrder.Compare(v, v) < 0 <==> VersionOrder.Compare(v, v) > 0;
      }
    }
  }

  lemma Below(u: Version, v: Version, w: Version)
    requires VersionOrder.Compare(u, v) <= 0 && VersionOrder.Compare(w, v) > 0
    ensures VersionOrder.Compare(u, w) < 0
  {
    hide VersionOrder.Compare;
    VersionOrder.CompareIsPreorder();
    assert VersionOrder.Compare(u, w) >= 0 ==> VersionOrder.Compare(w, u) <= 0;
    assert VersionOrder.Compare(w, u) <= 0 ==> VersionOrder.Compare(w, v) <= 0;
  }

  /** With a bounded version the choice is newest by section 11 of Semantic Versioning: it comes after the current
      version, and after or level with every eligible candidate. */
  lemma HighestIsNewest(sha256: Hash, candidates: seq<Release>, current: Version, accountId: Bytes, k: nat)
    requires WellFormed(current) && Highest(sha256, candidates, current, accountId, k)
    requires VersionOrder.AllBounded(Parse(candidates[k].version).value)
    ensures VersionOrder.Precedes(current, Parse(candidates[k].version).value)
    ensures forall i | 0 <= i < |candidates| && Eligible(sha256, candidates[i], current, accountId) ::
              candidates[i].version == candidates[k].version
              || VersionOrder.Precedes(Parse(candidates[i].version).value, Parse(candidates[k].version).value)
  {
    hide Parse, IncludedInRollout, VersionOrder.Compare, VersionOrder.Precedes, VersionOrder.AllBounded, WellFormed,
         Print;
    var chosen := Parse(candidates[k].version).value;
    PrintOfParse(candidates[k].version);
    VersionOrder.OrderIsExactIff(chosen);
    VersionOrder.CompareIsPreorder();
    assert VersionOrder.Agrees(chosen, current);
    forall i | 0 <= i < |candidates| && Eligible(sha256, candidates[i], current, accountId)
      ensures candidates[i].version == candidates[k].version
              || VersionOrder.Precedes(Parse(candidates[i].version).value, chosen)
    {
      var other := Parse(candidates[i].version).value;
      PrintOfParse(candidates[i].version);
      assert VersionOrder.Agrees(chosen, other);
      assert VersionOrder.Compare(other, chosen) <= 0;
      assert VersionOrder.Compare(chosen, other) < 0 <==> VersionOrder.Compare(other, chosen) > 0;
    }
  }
}
