/** What the allowlist and the floors cut off, over any history of their updates mixed with
    requests (allowlist.go, generation.go, verifier.go). */
module Revocation {
  import opened Wrappers
  import opened Tokens
  import opened Allowlists
  import opened Replay
  import opened Requests

  datatype Event = Change(update: Update) | Visit(view: View, req: Request, now: Instant, cacheNow: Instant)

  /** The updates among the first n events. */
  function Updates(events: seq<Event>, n: nat): seq<Update>
    requires n <= |events|
  {
    if n == 0 then []
    else if events[n - 1].Change? then Updates(events, n - 1) + [events[n - 1].update]
    else Updates(events, n - 1)
  }

  /** The lists a verifier sees at event n. */
  function ListsAt(initial: seq<string>, events: seq<Event>, n: nat): Lists
    requires n <= |events|
  {
    if n == 0 then Lists(Elements(initial), map[])
    else if events[n - 1].Change? then Allowlists.Applied(ListsAt(initial, events, n - 1), events[n - 1].update)
    else ListsAt(initial, events, n - 1)
  }

  lemma {:induction false} ListsAtIsHistory(initial: seq<string>, events: seq<Event>, n: nat)
    requires n <= |events|
    ensures ListsAt(initial, events, n) == ListsAfter(initial, Updates(events, n))
  {
    if n > 0 {
      ListsAtIsHistory(initial, events, n - 1);
      if events[n - 1].Change? {
        var before := Updates(events, n - 1);
        assert (before + [events[n - 1].update])[..|before|] == before;
      }
    }
  }

  /** The verdict of the visit at event n, whatever nonces are held. */
  function VerdictAt(cfg: Config, initial: seq<string>, events: seq<Event>, n: nat, nonces: Option<Nonces>): Option<Identity>
    requires n < |events| && events[n].Visit?
  {
    var e := events[n];
    Authenticate(e.view, cfg, ListsAt(initial, events, n), nonces, e.req, e.now, e.cacheNow).0
  }

  /** The token's stamp, if it has one, is readable and at or above a floor. */
  predicate AtOrAbove(lib: Lib, ext: Extensions, floor: nat) {
    match StampOf(lib, ext)
    case Malformed => false
    case Unstamped => true
    case Stamped(gen) => gen >= floor
  }

  lemma AcceptedStands(v: View, cfg: Config, lists: Lists, nonces: Option<Nonces>, req: Request, now: Instant, cacheNow: Instant)
    requires Authenticate(v, cfg, lists, nonces, req, now, cacheNow).0.Some?
    ensures var id := Authenticate(v, cfg, lists, nonces, req, now, cacheNow).0.value;
            && id.account.claims.id in lists.ids
            && CheckGenerationFloor(v.lib, id.account.ext, id.account.claims.issuer, EnforcedFloors(cfg, lists))
            && (id.user.Some? ==>
                  CheckGenerationFloor(v.lib, id.user.value.ext, id.user.value.claims.issuer, EnforcedFloors(cfg, lists)))
  {
  }

  /** In every history, an accepted request's account is allowed by the last list set, and with floors
      on every stamped token of its chain is at or above the floor last set for its issuer, bearer
      requests included. */
  lemma AcceptedIsAllowedNow(cfg: Config, initial: seq<string>, events: seq<Event>, n: nat, nonces: Option<Nonces>)
    requires n < |events| && events[n].Visit? && VerdictAt(cfg, initial, events, n, nonces).Some?
    ensures var id := VerdictAt(cfg, initial, events, n, nonces).value;
            var lib, history := events[n].view.lib, Updates(events, n);
            && AllowedAfter(initial, history, id.account.claims.id)
            && (cfg.enforceFloors ==>
                  && AtOrAbove(lib, id.account.ext, FloorAfter(history, id.account.claims.issuer))
                  && (id.user.Some? ==> AtOrAbove(lib, id.user.value.ext, FloorAfter(history, id.user.value.claims.issuer))))
  {
    var e := events[n];
    var history := Updates(events, n);
    ListsAtIsHistory(initial, events, n);
    AcceptedStands(e.view, cfg, ListsAt(initial, events, n), nonces, e.req, e.now, e.cacheNow);
    ListsTellTheHistory(initial, history);
    var id := VerdictAt(cfg, initial, events, n, nonces).value;
    FloorRule(e.view.lib, id.account.ext, id.account.claims.issuer, initial, history);
    if id.user.Some? {
      FloorRule(e.view.lib, id.user.value.ext, id.user.value.claims.issuer, initial, history);
    }
  }

  predicate ResetsList(e: Event) {
    e.Change? && e.update.Set?
  }

  predicate ResetsFloor(e: Event, entity: string) {
    e.Change? && (e.update.SetFloors? || (e.update.SetFloor? && e.update.entity == entity))
  }

  lemma {:induction false} ListPersists(initial: seq<string>, events: seq<Event>, c: nat, n: nat, jti: string)
    requires c < n <= |events| && ResetsList(events[c])
    requires forall i :: c < i < n ==> !ResetsList(events[i])
    ensures AllowedAfter(initial, Updates(events, n), jti) <==> jti in events[c].update.ids
  {
    if n > c + 1 {
      ListPersists(initial, events, c, n - 1, jti);
    }
    if events[n - 1].Change? {
      var before := Updates(events, n - 1);
      assert (before + [events[n - 1].update])[..|before|] == before;
    }
  }

  /** The floor an update leaves an entity with, when it sets it at all. */
  function FloorSet(e: Event, entity: string): nat
    requires ResetsFloor(e, entity)
  {
    if e.update.SetFloor? then e.update.gen else FloorIn(e.update.floors, entity)
  }

  lemma {:induction false} FloorPersists(events: seq<Event>, c: nat, n: nat, entity: string)
    requires c < n <= |events| && ResetsFloor(events[c], entity)
    requires forall i :: c < i < n ==> !ResetsFloor(events[i], entity)
    ensures FloorAfter(Updates(events, n), entity) == FloorSet(events[c], entity)
  {
    if n > c + 1 {
      FloorPersists(events, c, n - 1, entity);
    }
    if events[n - 1].Change? {
      var before := Updates(events, n - 1);
      assert (before + [events[n - 1].update])[..|before|] == before;
    }
  }

  /** Once a list is set without a jti, no request under that account token is accepted until a list
      is set again. */
  lemma RemovalCutsTheAccount(cfg: Config, initial: seq<string>, events: seq<Event>, c: nat, n: nat, nonces: Option<Nonces>)
    requires c < n < |events| && ResetsList(events[c]) && events[n].Visit?
    requires forall i :: c < i < n ==> !ResetsList(events[i])
    ensures VerdictAt(cfg, initial, events, n, nonces).Some? ==>
              VerdictAt(cfg, initial, events, n, nonces).value.account.claims.id in events[c].update.ids
  {
    if VerdictAt(cfg, initial, events, n, nonces).Some? {
      AcceptedIsAllowedNow(cfg, initial, events, n, nonces);
      ListPersists(initial, events, c, n, VerdictAt(cfg, initial, events, n, nonces).value.account.claims.id);
    }
  }

  /** Once an entity's floor is set, alone or with a whole new set of floors, no request whose chain holds
      a lower-stamped token of that entity is accepted, at either level, until its floor is set again. */
  lemma FloorCutsTheEntity(cfg: Config, initial: seq<string>, events: seq<Event>, c: nat, n: nat, nonces: Option<Nonces>,
                           entity: string)
    requires cfg.enforceFloors && c < n < |events| && events[n].Visit?
    requires ResetsFloor(events[c], entity) && forall i :: c < i < n ==> !ResetsFloor(events[i], entity)
    ensures VerdictAt(cfg, initial, events, n, nonces).Some? ==>
              var id, floor := VerdictAt(cfg, initial, events, n, nonces).value, FloorSet(events[c], entity);
              && (id.account.claims.issuer == entity ==> AtOrAbove(events[n].view.lib, id.account.ext, floor))
              && (id.user.Some? && id.user.value.claims.issuer == entity ==>
                    AtOrAbove(events[n].view.lib, id.user.value.ext, floor))
  {
    if VerdictAt(cfg, initial, events, n, nonces).Some? {
      AcceptedIsAllowedNow(cfg, initial, events, n, nonces);
      FloorPersists(events, c, n, entity);
    }
  }
}
