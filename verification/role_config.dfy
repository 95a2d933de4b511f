/** Role configurations and their validation. */
module RoleConfig {

  const RED: string := "RED"
  const BLUE: string := "BLUE"
  const GREY: string := "GREY"

  const LEADER: string := "leader"
  const SPY: string := "spy"
  const OPERATIVE: string := "operative"

  /** A number of players, or a table from player counts to it. */
  datatype RoleCount = Fixed(n: int) | Ranges(table: map<int, int>) {
    function Of(players: int): int {
      match this
      case Fixed(n) => n
      case Ranges(table) => if players in table then table[players] else 0
    }
  }

  datatype RoleDef = RoleDef(
    id: string, name: string, team: string, kind: string, count: RoleCount, minPlayers: int, priority: int)

  datatype Config = Config(id: string, name: string, version: string, roles: seq<RoleDef>)

  datatype Fault =
    | MissingID | MissingName | MissingVersion | NoRoles | DuplicateID(at: nat) | MissingRoleName(at: nat)
    | InvalidTeam(at: nat) | TooFewPlayers(at: nat) | NegativeCount(at: nat) | InvalidType(at: nat)
    | DuplicatePriority(at: nat) | NoRedRole | NoBlueRole | NoRedLeader | NoBlueLeader

  predicate GoodRole(d: RoleDef) {
    && d.name != ""
    && d.team in {RED, BLUE, GREY}
    && d.minPlayers >= 6
    && (d.count.Fixed? ==> d.count.n >= 0)
    && d.kind in {LEADER, SPY, OPERATIVE, "grey", "special"}
  }

  /** Two roles may stand in one configuration. */
  predicate Compatible(d: RoleDef, e: RoleDef) {
    d.id != e.id && (d.team == e.team && d.team in {RED, BLUE} ==> d.priority != e.priority)
  }

  predicate DistinctIDs(roles: seq<RoleDef>) {
    forall i, j :: 0 <= i < j < |roles| ==> roles[i].id != roles[j].id
  }

  predicate HasLeader(roles: seq<RoleDef>, team: string) {
    exists i :: 0 <= i < |roles| && roles[i].team == team && roles[i].kind == LEADER
  }

  predicate AllGood(roles: seq<RoleDef>) {
    && (forall i :: 0 <= i < |roles| ==> GoodRole(roles[i]))
    && (forall i, j :: 0 <= i < j < |roles| ==> Compatible(roles[i], roles[j]))
  }

  predicate ValidConfig(c: Config) {
    && c.id != "" && c.name != "" && c.version != ""
    && AllGood(c.roles)
    && HasLeader(c.roles, RED) && HasLeader(c.roles, BLUE)
  }

  /** What a valid configuration is: named and versioned; every role with its own id, and with its own priority in its red
      or blue team; no role for fewer than six players; a leader in either team. */
  lemma ValidIff(c: Config)
    ensures ValidConfig(c) <==>
              && c.id != "" && c.name != "" && c.version != ""
              && (forall i :: 0 <= i < |c.roles| ==>
                    && c.roles[i].name != "" && c.roles[i].team in {"RED", "BLUE", "GREY"} && c.roles[i].minPlayers >= 6
                    && c.roles[i].kind in {"leader", "spy", "operative", "grey", "special"}
                    && (c.roles[i].count.Fixed? ==> c.roles[i].count.n >= 0))
              && (forall i, j :: 0 <= i < j < |c.roles| ==>
                    && c.roles[i].id != c.roles[j].id
                    && (c.roles[i].team == c.roles[j].team != "GREY" ==> c.roles[i].priority != c.roles[j].priority))
              && (exists i :: 0 <= i < |c.roles| && c.roles[i].team == "RED" && c.roles[i].kind == "leader")
              && (exists i :: 0 <= i < |c.roles| && c.roles[i].team == "BLUE" && c.roles[i].kind == "leader")
  {
  }

  method CheckMetadata(c: Config) returns (faults: seq<Fault>)
    ensures faults == [] <==> c.id != "" && c.name != "" && c.version != "" && c.roles != []
  {
    faults := [];
    if c.id == "" { faults := faults + [MissingID]; }
    if c.name == "" { faults := faults + [MissingName]; }
    if c.version == "" { faults := faults + [MissingVersion]; }
    if |c.roles| == 0 { faults := faults + [NoRoles]; }
  }

  /** The checks on one role alone. */
  method CheckRole(d: RoleDef, at: nat) returns (faults: seq<Fault>)
    ensures faults == [] <==> GoodRole(d)
  {
    faults := [];
    if d.name == "" { faults := faults + [MissingRoleName(at)]; }
    if d.team != RED && d.team != BLUE && d.team != GREY { faults := faults + [InvalidTeam(at)]; }
    if d.minPlayers < 6 { faults := faults + [TooFewPlayers(at)]; }
    if d.count.Fixed? && d.count.n < 0 { faults := faults + [NegativeCount(at)]; }
    if d.kind !in {LEADER, SPY, OPERATIVE, "grey", "special"} { faults := faults + [InvalidType(at)]; }
  }

  predicate HasTeam(roles: seq<RoleDef>, team: string) {
    exists i :: 0 <= i < |roles| && roles[i].team == team
  }

  /** The ids of the roles, and the priorities they take up in the two teams. */
  ghost predicate Seen(roles: seq<RoleDef>, ids: set<string>, priorities: set<(string, int)>) {
    && ids == (set d | d in roles :: d.id)
    && priorities == set d | d in roles && d.team in {RED, BLUE} :: (d.team, d.priority)
  }

  lemma AllGoodMore(roles: seq<RoleDef>, d: RoleDef, ids: set<string>, priorities: set<(string, int)>)
    requires Seen(roles, ids, priorities)
    ensures AllGood(roles + [d]) <==>
              AllGood(roles) && GoodRole(d) && d.id !in ids
              && (d.team in {RED, BLUE} ==> (d.team, d.priority) !in priorities)
  {
    var all, n := roles + [d], |roles|;
    if AllGood(all) {
      assert all[n] == d;
      forall i | 0 <= i < n ensures GoodRole(roles[i]) && Compatible(roles[i], d) {
        assert all[i] == roles[i];
      }
      forall i, j | 0 <= i < j < n ensures Compatible(roles[i], roles[j]) {
        assert all[i] == roles[i] && all[j] == roles[j];
      }
    }
    if AllGood(roles) && GoodRole(d) && d.id !in ids && (d.team in {RED, BLUE} ==> (d.team, d.priority) !in priorities) {
      forall i | 0 <= i < |all| ensures GoodRole(all[i]) {
        assert i < n ==> all[i] == roles[i];
      }
      forall i, j | 0 <= i < j < |all| ensures Compatible(all[i], all[j]) {
        assert all[i] == roles[i] && roles[i] in roles;
        assert j < n ==> all[j] == roles[j];
      }
    }
  }

  lemma SeenMore(roles: seq<RoleDef>, d: RoleDef, ids: set<string>, priorities: set<(string, int)>)
    requires Seen(roles, ids, priorities)
    ensures Seen(roles + [d], ids + {d.id}, priorities + if d.team in {RED, BLUE} then {(d.team, d.priority)} else {})
  {
    forall e ensures e in roles + [d] <==> e in roles || e == d {}
  }

  /** The checks on all roles, with the tables of ids and of team priorities already seen. */
  method CheckRoles(roles: seq<RoleDef>) returns (faults: seq<Fault>)
    ensures faults == [] <==> AllGood(roles)
  {
    faults := [];
    var seenIDs: set<string> := {};
    var seenPriorities: set<(string, int)> := {};
    for k := 0 to |roles|
      invariant Seen(roles[..k], seenIDs, seenPriorities)
      invariant faults == [] <==> AllGood(roles[..k])
    {
      var d := roles[k];
      assert roles[..k + 1] == roles[..k] + [d];
      AllGoodMore(roles[..k], d, seenIDs, seenPriorities);
      SeenMore(roles[..k], d, seenIDs, seenPriorities);
      if d.id in seenIDs { faults := faults + [DuplicateID(k)]; }
      seenIDs := seenIDs + {d.id};
      var own := CheckRole(d, k);
      faults := faults + own;
      if d.team == RED || d.team == BLUE {
        if (d.team, d.priority) in seenPriorities { faults := faults + [DuplicatePriority(k)]; }
        seenPriorities := seenPriorities + {(d.team, d.priority)};
      }
    }
    assert roles[..|roles|] == roles;
  }

  method FindTeam(roles: seq<RoleDef>, team: string) returns (found: bool)
    ensures found <==> HasTeam(roles, team)
  {
    found := false;
    for k := 0 to |roles|
      invariant found <==> HasTeam(roles[..k], team)
    {
      assert roles[..k + 1] == roles[..k] + [roles[k]];
      if roles[k].team == team {
        assert roles[..k + 1][k].team == team;
        found := true;
      }
    }
    assert roles[..|roles|] == roles;
  }

  method FindLeader(roles: seq<RoleDef>, team: string) returns (found: bool)
    ensures found <==> HasLeader(roles, team)
  {
    found := false;
    for k := 0 to |roles|
      invariant found <==> exists i :: 0 <= i < k && roles[i].team == team && roles[i].kind == LEADER
    {
      if roles[k].team == team && roles[k].kind == LEADER {
        found := true;
      }
    }
  }

  /** Validation accepts a configuration exactly when it is valid. */
  method ValidateRoleConfig(c: Config) returns (faults: seq<Fault>)
    ensures faults == [] <==> ValidConfig(c)
    ensures faults == [] ==> DistinctIDs(c.roles)
  {
    faults := CheckMetadata(c);
    var more := CheckRoles(c.roles);
    var hasRed := FindTeam(c.roles, RED);
    var hasBlue := FindTeam(c.roles, BLUE);
    faults := faults + more;
    if !hasRed { faults := faults + [NoRedRole]; }
    if !hasBlue { faults := faults + [NoBlueRole]; }
    var hasRedLeader := FindLeader(c.roles, RED);
    var hasBlueLeader := FindLeader(c.roles, BLUE);
    if !hasRedLeader { faults := faults + [NoRedLeader]; }
    if !hasBlueLeader { faults := faults + [NoBlueLeader]; }
  }
}
