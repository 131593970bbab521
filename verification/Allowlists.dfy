/** The server-side list of accepted tokens with its generation floors (allowlist.go),
    and the floor rule for one token (generation.go). */
module Allowlists {
  import opened Wrappers
  import opened Tokens

  const GENERATION_EXTENSION := "gen"

  datatype Lists = Lists(ids: set<string>, floors: map<string, nat>)

  datatype Update =
    | Set(ids: seq<string>)
    | SetFloor(entity: string, gen: nat)
    | SetFloors(floors: map<string, nat>)

  function Elements(ids: seq<string>): set<string> {
    set id | id in ids
  }

  /** The map that stores a floor only when it constrains something. */
  function DropZeros(floors: map<string, nat>): map<string, nat> {
    map e | e in floors && floors[e] != 0 :: floors[e]
  }

  function Applied(l: Lists, u: Update): Lists {
    match u
    case Set(ids) => l.(ids := Elements(ids))
    case SetFloor(e, gen) => l.(floors := if gen == 0 then l.floors - {e} else l.floors[e := gen])
    case SetFloors(floors) => l.(floors := DropZeros(floors))
  }

  class StaticAllowlist {
    var ids: set<string>
    var floors: map<string, nat>

    constructor (ids: seq<string>)
      ensures Now() == Lists(Elements(ids), map[])
    {
      this.ids, this.floors := {}, map[];
      new;
      for i := 0 to |ids|
        invariant this.floors == map[] && this.ids == Elements(ids[..i])
      {
        this.ids := this.ids + {ids[i]};
      }
      assert ids[..|ids|] == ids;
    }

    function Now(): Lists
      reads this
    {
      Lists(ids, floors)
    }

    predicate Allowed(jti: string)
      reads this
    {
      jti in ids
    }

    method SetFloor(entity: string, gen: nat)
      modifies this
      ensures Now() == Applied(old(Now()), Update.SetFloor(entity, gen))
    {
      if gen == 0 {
        floors := floors - {entity};
        return;
      }
      floors := floors[entity := gen];
    }

    method SetFloors(given: map<string, nat>)
      modifies this
      ensures Now() == Applied(old(Now()), Update.SetFloors(given))
    {
      var next: map<string, nat> := map[];
      var rest := given.Keys;
      while rest != {}
        invariant rest <= given.Keys
        invariant next == map e | e in given && e !in rest && given[e] != 0 :: given[e]
        decreases |rest|
      {
        var entity :| entity in rest;
        if given[entity] != 0 {
          next := next[entity := given[entity]];
        }
        rest := rest - {entity};
      }
      floors := next;
    }

    method Set(given: seq<string>)
      modifies this
      ensures Now() == Applied(old(Now()), Update.Set(given))
    {
      var next: set<string> := {};
      for i := 0 to |given|
        invariant next == Elements(given[..i])
      {
        next := next + {given[i]};
      }
      assert given[..|given|] == given;
      ids := next;
    }
  }

  // ------------------------------------------------------------------
  // What a history of updates means, read backwards from its end.
  // ------------------------------------------------------------------

  /** The jti is in the last list set (or in the initial one). */
  predicate AllowedAfter(initial: seq<string>, history: seq<Update>, jti: string) {
    if history == [] then jti in initial
    else
      var last := history[|history| - 1];
      if last.Set? then jti in last.ids else AllowedAfter(initial, history[..|history| - 1], jti)
  }

  /** The floor of an entity, as a total function: whatever was set last, and 0 if nothing was. */
  function FloorAfter(history: seq<Update>, entity: string): nat {
    if history == [] then 0
    else
      var last, before := history[|history| - 1], history[..|history| - 1];
      match last
      case Set(_) => FloorAfter(before, entity)
      case SetFloor(e, gen) => if e == entity then gen else FloorAfter(before, entity)
      case SetFloors(floors) => if entity in floors then floors[entity] else 0
  }

  function ListsAfter(initial: seq<string>, history: seq<Update>): Lists {
    if history == [] then Lists(Elements(initial), map[])
    else Applied(ListsAfter(initial, history[..|history| - 1]), history[|history| - 1])
  }

  /** A floor map read as a total function. */
  function FloorIn(floors: map<string, nat>, entity: string): nat {
    if entity in floors then floors[entity] else 0
  }

  /** The stored set and the zero-dropping map are that history: same members, same total function,
      and an entity is in the map exactly when its floor is not 0. */
  lemma {:induction false} ListsTellTheHistory(initial: seq<string>, history: seq<Update>)
    ensures var l := ListsAfter(initial, history);
            && (forall jti :: jti in l.ids <==> AllowedAfter(initial, history, jti))
            && (forall e :: FloorIn(l.floors, e) == FloorAfter(history, e))
            && (forall e :: e in l.floors <==> FloorAfter(history, e) != 0)
  {
    if history != [] {
      ListsTellTheHistory(initial, history[..|history| - 1]);
    }
  }

  // ------------------------------------------------------------------
  // The floor rule for one token.
  // ------------------------------------------------------------------

  /** The generation stamped on a token: absent, malformed, or a number. */
  datatype Stamp = Unstamped | Malformed | Stamped(gen: nat)

  function StampOf(lib: Lib, ext: Extensions): Stamp {
    if GENERATION_EXTENSION !in ext then Unstamped
    else match lib.generation(ext[GENERATION_EXTENSION])
      case None => Malformed
      case Some(gen) => Stamped(gen)
  }

  /** `floors` is None when the verifier does not enforce floors. */
  predicate CheckGenerationFloor(lib: Lib, ext: Extensions, issuer: string, floors: Option<map<string, nat>>) {
    if floors.None? then true
    else match StampOf(lib, ext)
      case Malformed => false
      case Unstamped => true
      case Stamped(gen) => if issuer !in floors.value then true else gen >= floors.value[issuer]
  }

  /** With floors on, a token passes exactly when it carries no stamp or one at or above its issuer's
      floor in the history. */
  lemma FloorRule(lib: Lib, ext: Extensions, issuer: string, initial: seq<string>, history: seq<Update>)
    ensures CheckGenerationFloor(lib, ext, issuer, Some(ListsAfter(initial, history).floors)) <==>
            match StampOf(lib, ext)
            case Malformed => false
            case Unstamped => true
            case Stamped(gen) => gen >= FloorAfter(history, issuer)
  {
    ListsTellTheHistory(initial, history);
    assert FloorIn(ListsAfter(initial, history).floors, issuer) == FloorAfter(history, issuer);
  }
}
