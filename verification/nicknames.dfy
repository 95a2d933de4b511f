/** Nicknames and the suffixes that keep them apart. */
module Nicknames {
  import opened Models
  import opened Sets

  const LAST_SUFFIX: nat := 100

  // ----- decimal numbers -----

  function Digit(n: nat): char
    requires n < 10
  {
    "0123456789"[n]
  }

  function Decimal(n: nat): (s: string)
    ensures |s| > 0
  {
    if n < 10 then [Digit(n)] else Decimal(n / 10) + [Digit(n % 10)]
  }

  lemma {:induction false} DecimalInjective(m: nat, n: nat)
    requires Decimal(m) == Decimal(n)
    ensures m == n
  {
    var s, t := Decimal(m), Decimal(n);
    assert s[|s| - 1] == Digit(m % 10) && t[|t| - 1] == Digit(n % 10);
    if m < 10 || n < 10 {
    } else {
      assert s[..|s| - 1] == Decimal(m / 10) && t[..|t| - 1] == Decimal(n / 10);
      DecimalInjective(m / 10, n / 10);
    }
  }

  /** The number that a string of digits stands for. */
  function Read(s: string): int {
    if s == "" then 0 else 10 * Read(s[..|s| - 1]) + (s[|s| - 1] as int - '0' as int)
  }

  /** Numbers are written in decimal, without leading zeros. */
  lemma {:induction false} DecimalReads(n: nat)
    ensures Read(Decimal(n)) == n
    ensures forall i :: 0 <= i < |Decimal(n)| ==> '0' <= Decimal(n)[i] <= '9'
    ensures n > 0 ==> Decimal(n)[0] != '0'
  {
    DigitReads(n % 10);
    if n < 10 {
      assert Decimal(n)[..0] == "";
    } else {
      DecimalReads(n / 10);
      assert Decimal(n)[..|Decimal(n)| - 1] == Decimal(n / 10);
    }
  }

  lemma DigitReads(d: nat)
    requires d < 10
    ensures Digit(d) as int == '0' as int + d
  {
  }

  // ----- suffixed names -----

  function Suffixed(name: string, k: nat): string {
    name + " (" + Decimal(k) + ")"
  }

  lemma SuffixedInjective(name: string, j: nat, k: nat)
    requires Suffixed(name, j) == Suffixed(name, k)
    ensures j == k
  {
    var s, t, n := Suffixed(name, j), Suffixed(name, k), |name| + 2;
    assert s[n..|s| - 1] == Decimal(j) && t[n..|t| - 1] == Decimal(k);
    DecimalInjective(j, k);
  }

  /** Somebody other than `id` goes by this name. */
  predicate Taken(ps: seq<PlayerView>, id: Id, name: string) {
    exists i :: 0 <= i < |ps| && ps[i].id != id && ps[i].nickname == name
  }

  /** The name that a rename to `name` ends up with: itself if free, or the first free suffix from `k` on; past
      the last suffix the next one is used unseen. */
  function FreeName(ps: seq<PlayerView>, id: Id, name: string, k: nat): string
    requires k <= LAST_SUFFIX + 1
    decreases LAST_SUFFIX + 1 - k
  {
    if k > LAST_SUFFIX || !Taken(ps, id, Suffixed(name, k)) then Suffixed(name, k) else FreeName(ps, id, name, k + 1)
  }

  function Deduplicated(ps: seq<PlayerView>, id: Id, name: string): string {
    if Taken(ps, id, name) then FreeName(ps, id, name, 2) else name
  }

  // ----- why a free name is found -----

  function NamesOf(ps: seq<PlayerView>, id: Id): set<string> {
    set i | 0 <= i < |ps| && ps[i].id != id :: ps[i].nickname
  }

  function Suffixes(name: string, k: nat): set<string> {
    set j | 2 <= j < k :: Suffixed(name, j)
  }

  lemma {:induction false} SuffixesSize(name: string, k: nat)
    requires k >= 2
    ensures |Suffixes(name, k)| == k - 2 && name !in Suffixes(name, k)
  {
    if k == 2 {
    } else {
      SuffixesSize(name, k - 1);
      assert Suffixes(name, k) == Suffixes(name, k - 1) + {Suffixed(name, k - 1)};
      if Suffixed(name, k - 1) in Suffixes(name, k - 1) {
        var j :| 2 <= j < k - 1 && Suffixed(name, j) == Suffixed(name, k - 1);
        SuffixedInjective(name, j, k - 1);
      }
    }
    assert forall j :: |Suffixed(name, j)| > |name|;
  }

  lemma {:induction false} NamesSize(ps: seq<PlayerView>, id: Id)
    ensures |NamesOf(ps, id)| <= |ps|
  {
    if ps == [] {
    } else {
      var last, rest := ps[|ps| - 1], ps[..|ps| - 1];
      NamesSize(rest, id);
      assert NamesOf(ps, id) == NamesOf(rest, id) + if last.id != id then {last.nickname} else {};
    }
  }

  lemma OthersSize(ps: seq<PlayerView>, id: Id, k: nat)
    requires k < |ps| && ps[k].id == id
    ensures |NamesOf(ps, id)| < |ps|
  {
    var others := ps[..k] + ps[k + 1..];
    assert NamesOf(ps, id) == NamesOf(others, id) by {
      forall i | 0 <= i < |ps| && ps[i].id != id ensures ps[i].nickname in NamesOf(others, id) {
        assert others[if i < k then i else i - 1] == ps[i];
      }
    }
    NamesSize(others, id);
  }

  lemma {:induction false} FreeNameStops(ps: seq<PlayerView>, id: Id, name: string, k: nat) returns (s: nat)
    requires k <= LAST_SUFFIX + 1
    ensures k <= s <= LAST_SUFFIX + 1 && FreeName(ps, id, name, k) == Suffixed(name, s)
    ensures forall j :: k <= j < s ==> Taken(ps, id, Suffixed(name, j))
    ensures s <= LAST_SUFFIX ==> !Taken(ps, id, Suffixed(name, s))
    decreases LAST_SUFFIX + 1 - k
  {
    if k > LAST_SUFFIX || !Taken(ps, id, Suffixed(name, k)) {
      s := k;
    } else {
      s := FreeNameStops(ps, id, name, k + 1);
    }
  }

  /** A name and its first suffixes cannot all be taken in a room with fewer other players. */
  lemma Pigeonhole(ps: seq<PlayerView>, id: Id, name: string, k: nat)
    requires k >= 2 && Taken(ps, id, name)
    requires forall j :: 2 <= j < k ==> Taken(ps, id, Suffixed(name, j))
    ensures k - 1 <= |NamesOf(ps, id)|
  {
    SuffixesSize(name, k);
    var names := Suffixes(name, k) + {name};
    forall x | x in names ensures x in NamesOf(ps, id) {
      if x != name {
        var j :| 2 <= j < k && x == Suffixed(name, j);
      }
    }
    SubsetSize(names, NamesOf(ps, id));
  }

  /** The name a player ends up with is somebody else's exactly when the wanted name and all its suffixes up to
      the one past the last are. */
  lemma DeduplicatedTakenIff(ps: seq<PlayerView>, id: Id, name: string)
    ensures Taken(ps, id, Deduplicated(ps, id, name)) <==>
              Taken(ps, id, name) && forall j :: 2 <= j <= LAST_SUFFIX + 1 ==> Taken(ps, id, Suffixed(name, j))
  {
    if Taken(ps, id, name) {
      var s := FreeNameStops(ps, id, name, 2);
    }
  }

  /** So it is free in every room that could ever be filled; with at most a hundred players the search even ends
      before its last suffix. */
  lemma DeduplicatedIsFree(ps: seq<PlayerView>, id: Id, name: string)
    requires (exists i :: 0 <= i < |ps| && ps[i].id == id) && |ps| <= LAST_SUFFIX + 1
    ensures !Taken(ps, id, Deduplicated(ps, id, name))
    ensures |ps| <= LAST_SUFFIX ==>
              Deduplicated(ps, id, name) == name
              || exists s :: 2 <= s <= LAST_SUFFIX && Deduplicated(ps, id, name) == Suffixed(name, s)
  {
    var k :| 0 <= k < |ps| && ps[k].id == id;
    OthersSize(ps, id, k);
    if Taken(ps, id, name) {
      var s := FreeNameStops(ps, id, name, 2);
      Pigeonhole(ps, id, name, s);
      if Taken(ps, id, Suffixed(name, s)) {
        Pigeonhole(ps, id, name, s + 1);
      }
    }
  }

  predicate DistinctNames(ps: seq<PlayerView>) {
    forall i, j :: 0 <= i < j < |ps| ==> ps[i].nickname != ps[j].nickname
  }
}
