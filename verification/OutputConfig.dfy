/**
  The check a configuration must pass before it is applied (mc_output_config_validate in
  firmware/components/core/mc_output.c), and what passing it guarantees: the hypotheses the
  safety theorems make about roles and pairs.
 */
module OutputConfig {
  import opened Output
  import OS = OutputSafety

  datatype Flag = MultipleIgnition | MultipleStarter | BadDuty | BadPeriod | BadAlternate | PairBothOnWithIgnition

  predicate AtMostOne(flags: seq<bool>, k: nat)
    requires k <= |flags|
  {
    forall i, j :: 0 <= i < k && 0 <= j < k && flags[i] && flags[j] ==> i == j
  }

  predicate Mutual(cfg: Config, i: int)
    requires 0 <= i < |cfg.roles| == N
  {
    var p := cfg.roles[i].alternate;
    0 <= p < N && p != i && cfg.roles[p].alternate == i
  }

  /** A channel whose pair is not mutual, and one whose pair both follow the ignition. */
  predicate BadPair(cfg: Config, i: int)
    requires 0 <= i < |cfg.roles| == N
  {
    cfg.roles[i].alternate >= 0 && !Mutual(cfg, i)
  }

  predicate BothFollow(cfg: Config, i: int)
    requires 0 <= i < |cfg.roles| == N
  {
    Mutual(cfg, i) && cfg.roles[i].onWithIgnition && cfg.roles[cfg.roles[i].alternate].onWithIgnition
  }

  predicate DutyOk(r: Role) {
    1 <= r.dutyPct <= 100
  }

  /** Counts how many are set; more than one exactly when two different ones are. */
  method CountSet(flags: seq<bool>) returns (n: nat)
    ensures n <= 1 <==> AtMostOne(flags, |flags|)
  {
    n := 0;
    for k := 0 to |flags|
      invariant n == 0 <==> forall i :: 0 <= i < k ==> !flags[i]
      invariant n <= 1 <==> AtMostOne(flags, k)
    {
      if flags[k] { n := n + 1; }
    }
  }

  predicate AtMostOneStarter(cfg: Config) {
    forall i, j :: 0 <= i < |cfg.roles| && 0 <= j < |cfg.roles| && cfg.roles[i].isStarter && cfg.roles[j].isStarter ==> i == j
  }

  lemma SameIgnitions(cfg: Config, flags: seq<bool>)
    requires |flags| == |cfg.roles| == N && forall i :: 0 <= i < N ==> flags[i] == cfg.roles[i].isIgnition
    ensures AtMostOne(flags, N) <==> AtMostOneIgnition(cfg)
  {
    if !AtMostOneIgnition(cfg) {
      var i, j :| 0 <= i < N && 0 <= j < N && cfg.roles[i].isIgnition && cfg.roles[j].isIgnition && i != j;
      assert flags[i] && flags[j];
    }
  }

  lemma SameStarters(cfg: Config, flags: seq<bool>)
    requires |flags| == |cfg.roles| == N && forall i :: 0 <= i < N ==> flags[i] == cfg.roles[i].isStarter
    ensures AtMostOne(flags, N) <==> AtMostOneStarter(cfg)
  {
    if !AtMostOneStarter(cfg) {
      var i, j :| 0 <= i < N && 0 <= j < N && cfg.roles[i].isStarter && cfg.roles[j].isStarter && i != j;
      assert flags[i] && flags[j];
    }
  }

  method Validate(cfg: Config) returns (flags: set<Flag>)
    requires |cfg.roles| == N
    ensures MultipleIgnition in flags <==> !AtMostOneIgnition(cfg)
    ensures MultipleStarter in flags <==> !AtMostOneStarter(cfg)
    ensures BadAlternate in flags <==> exists i :: 0 <= i < N && BadPair(cfg, i)
    ensures PairBothOnWithIgnition in flags <==> exists i :: 0 <= i < N && BothFollow(cfg, i)
    ensures BadDuty in flags <==> exists i :: 0 <= i < N && !DutyOk(cfg.roles[i])
    ensures BadPeriod in flags <==> cfg.flashPeriodMs == 0
  {
    hide AtMostOneIgnition, AtMostOneStarter, BadPair, BothFollow, DutyOk;
    var counts := CheckCounts(cfg);
    var pairs := CheckPairs(cfg);
    var duties := CheckDuties(cfg);
    flags := counts + pairs + duties + if cfg.flashPeriodMs == 0 then {BadPeriod} else {};
  }

  method CheckCounts(cfg: Config) returns (flags: set<Flag>)
    requires |cfg.roles| == N
    ensures flags <= {MultipleIgnition, MultipleStarter}
    ensures (MultipleIgnition in flags <==> !AtMostOneIgnition(cfg)) && (MultipleStarter in flags <==> !AtMostOneStarter(cfg))
  {
    hide AtMostOne, AtMostOneIgnition, AtMostOneStarter;
    var ignitions := seq(N, i requires 0 <= i < N => cfg.roles[i].isIgnition);
    var starters := seq(N, i requires 0 <= i < N => cfg.roles[i].isStarter);
    var ignitionCount := CountSet(ignitions);
    var starterCount := CountSet(starters);
    SameIgnitions(cfg, ignitions);
    SameStarters(cfg, starters);
    flags := {};
    if ignitionCount > 1 { flags := flags + {MultipleIgnition}; }
    if starterCount > 1 { flags := flags + {MultipleStarter}; }
  }

  method CheckPairs(cfg: Config) returns (flags: set<Flag>)
    requires |cfg.roles| == N
    ensures flags <= {BadAlternate, PairBothOnWithIgnition}
    ensures BadAlternate in flags <==> exists i :: 0 <= i < N && BadPair(cfg, i)
    ensures PairBothOnWithIgnition in flags <==> exists i :: 0 <= i < N && BothFollow(cfg, i)
  {
    flags := {};
    for k := 0 to N
      invariant flags <= {BadAlternate, PairBothOnWithIgnition}
      invariant BadAlternate in flags <==> exists i :: 0 <= i < k && BadPair(cfg, i)
      invariant PairBothOnWithIgnition in flags <==> exists i :: 0 <= i < k && BothFollow(cfg, i)
    {
      var p := cfg.roles[k].alternate;
      if p >= 0 {
        if p >= N || p == k || cfg.roles[p].alternate != k {
          assert BadPair(cfg, k);
          flags := flags + {BadAlternate};
        } else if cfg.roles[k].onWithIgnition && cfg.roles[p].onWithIgnition {
          assert BothFollow(cfg, k);
          flags := flags + {PairBothOnWithIgnition};
        }
      }
    }
  }

  method CheckDuties(cfg: Config) returns (flags: set<Flag>)
    requires |cfg.roles| == N
    ensures flags <= {BadDuty} && (BadDuty in flags <==> exists i :: 0 <= i < N && !DutyOk(cfg.roles[i]))
  {
    flags := {};
    for k := 0 to N
      invariant flags <= {BadDuty} && (BadDuty in flags <==> exists i :: 0 <= i < k && !DutyOk(cfg.roles[i]))
    {
      if cfg.roles[k].dutyPct < 1 || cfg.roles[k].dutyPct > 100 { flags := flags + {BadDuty}; }
    }
  }

  /** In an accepted configuration every pair is reciprocal, so one whose members only
      commands can light never has both lit, over any run from a state where they are not. */
  lemma AcceptedPairsKeepApart(e: Engine, ops: seq<OS.Op>, a: nat)
    requires e.Valid() && a < N && e.cfg.roles[a].alternate >= 0 && !BadPair(e.cfg, a)
    requires CommandedOnly(e.cfg.roles[a]) && CommandedOnly(e.cfg.roles[e.cfg.roles[a].alternate])
    requires !(e.ch[a].on && e.ch[e.cfg.roles[a].alternate].on)
    ensures !(OS.Run(e, ops).ch[a].on && OS.Run(e, ops).ch[e.cfg.roles[a].alternate].on)
  {
    OS.RunNotBoth(e, ops, a, e.cfg.roles[a].alternate);
  }

  predicate CommandedOnly(r: Role) {
    !r.hazardMember && !r.onWithIgnition
  }
}
