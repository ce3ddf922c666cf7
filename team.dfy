/** Team assembly: the admission rule of `addToTeam`, removal by id in
    `removeUserFromTeam`, and the invariant they keep, that the team holds at
    most one member per domain and at most one per availability value. */
module Team {
  import opened Seqs

  /** A field of a user record as received from the listing service: a missing
      field reads as `undefined`, and `undefined === undefined` holds. */
  datatype Attr = Absent | Present(text: string)

  /** A user record. `availability` is the field the admission rule compares;
      `available` is the field the user card displays. */
  datatype User = User(
    id: int,
    firstName: string,
    lastName: string,
    gender: string,
    domain: Attr,
    availability: Attr,
    available: Attr)

  /** No two members (at different positions) share a domain or an availability value. */
  predicate TeamInvariant(team: seq<User>)
  {
    forall i, j :: 0 <= i < j < |team| ==>
      team[i].domain != team[j].domain && team[i].availability != team[j].availability
  }

  /** The selection after `addToTeam(user)`: the candidate is appended exactly when
      no member shares its domain and none shares its availability; otherwise the
      team is left as it was. */
  function Admit(team: seq<User>, user: User): (r: seq<User>)
    ensures (forall m :: m in team ==> m.domain != user.domain && m.availability != user.availability)
            ==> r == team + [user]
    ensures (exists m :: m in team && (m.domain == user.domain || m.availability == user.availability))
            ==> r == team
    ensures TeamInvariant(team) ==> TeamInvariant(r)
  {
    if !Any(team, (u: User) => u.domain == user.domain) && !Any(team, (u: User) => u.availability == user.availability)
    then team + [user]
    else team
  }

  /** The selection after `removeUserFromTeam(user)` where `user.id == id`:
      every member with that id is gone, every other member stays. */
  function Dismiss(team: seq<User>, id: int): (r: seq<User>)
    ensures forall m :: m in r ==> m in team && m.id != id
    ensures forall m :: m in team && m.id != id ==> m in r
    ensures (forall m :: m in team ==> m.id != id) ==> r == team
    ensures TeamInvariant(team) ==> TeamInvariant(r)
  {
    var keep := (u: User) => u.id != id;
    FilterAllKept(team, keep);
    FilterKeepsInvariant(team, keep);
    Filter(team, keep)
  }

  /** Removal keeps the surviving members in their original relative order:
      removing from a concatenation removes from each part. */
  lemma DismissConcat(a: seq<User>, b: seq<User>, id: int)
    ensures Dismiss(a + b, id) == Dismiss(a, id) + Dismiss(b, id)
  {
    FilterConcat(a, b, (u: User) => u.id != id);
  }

  /** A team with a member in front keeps the invariant exactly when the rest does
      and the front member clashes with none of the rest. */
  lemma TeamInvariantCons(x: User, rest: seq<User>)
    ensures TeamInvariant([x] + rest) <==>
      TeamInvariant(rest) &&
      forall m :: m in rest ==> x.domain != m.domain && x.availability != m.availability
  {
    var t := [x] + rest;
    if TeamInvariant(t) {
      forall i, j | 0 <= i < j < |rest|
        ensures rest[i].domain != rest[j].domain && rest[i].availability != rest[j].availability
      {
        assert t[i + 1] == rest[i] && t[j + 1] == rest[j];
      }
      forall m | m in rest
        ensures x.domain != m.domain && x.availability != m.availability
      {
        var k :| 0 <= k < |rest| && rest[k] == m;
        assert t[0] == x && t[k + 1] == m;
      }
    }
  }

  /** Dropping members never breaks the invariant. */
  lemma {:induction false} FilterKeepsInvariant(team: seq<User>, keep: User -> bool)
    ensures TeamInvariant(team) ==> TeamInvariant(Filter(team, keep))
  {
    if team != [] && TeamInvariant(team) {
      assert team == [team[0]] + team[1..];
      TeamInvariantCons(team[0], team[1..]);
      FilterKeepsInvariant(team[1..], keep);
      var rest := Filter(team[1..], keep);
      if keep(team[0]) {
        TeamInvariantCons(team[0], rest);
      } else {
        assert Filter(team, keep) == rest;
      }
    }
  }

  /** When no member has a recorded availability, every member's `availability`
      reads as `undefined` and compares equal to every other's, so the team can
      hold at most one member: any two such members break the invariant. */
  lemma AbsentAvailabilityLimitsTeam(team: seq<User>)
    requires |team| >= 2
    requires forall m :: m in team ==> m.availability == Absent
    ensures !TeamInvariant(team)
  {
    assert team[0] in team && team[1] in team;
  }

  /** When the first member and the candidate both lack `availability`, both
      read as `undefined`, which compares equal, so the candidate is turned away. */
  lemma AbsentAvailabilityRejected(team: seq<User>, user: User)
    requires team != [] && team[0].availability == Absent && user.availability == Absent
    ensures Admit(team, user) == team
  {
  }
}
