/**
 * The equipment service of the back end: equipment records, the clients and
 * technicians who hold equipment, and the operations that create, read,
 * delete, assign and release equipment.
 *
 * The repositories are in-memory maps: users by `cin` (clients and
 * technicians in one map, each with its role), equipment by `ref`. Each user
 * holds the list of the equipment assigned to it, as references; two
 * equipment entities are taken to be equal exactly when their `ref`s are
 * equal, which is how the list's `contains` and `remove` are read here.
 *
 * The class at the end is the service itself; each of its state-changing
 * methods is specified by one of the functions on `Store` below, and the
 * lemmas state what those functions promise.
 */
module EquipmentService {
  import opened Wrappers
  import TicketRepository

  type Cin = string
  type Ref = string

  /** The two kinds of user the service distinguishes (its client and technician repositories). */
  datatype Role = Client | Technician

  /** A stored user, its e-mail address and the references of the equipment in its list, in list order. */
  datatype User = User(cin: Cin, role: Role, email: string, equipment: seq<Ref>)

  /** A calendar date (`java.time.LocalDate`). */
  datatype LocalDate = LocalDate(year: int, month: int, day: int)

  /** An equipment record; `owner` is the `cin` of the owning user, `None` for none. */
  datatype Equipment = Equipment(ref: Ref, creationDate: Option<LocalDate>, available: bool, owner: Option<Cin>)

  /** The three exceptions the service throws. */
  datatype ServiceError = UserNotFound | EquipmentNotFound | EquipmentAlreadyExists

  /** How a `void` operation ends: normally, or by throwing. */
  datatype Outcome = Done | Failed(error: ServiceError)

  /** How an operation with a result ends: with the result, or by throwing. */
  datatype Result<T> = Ok(value: T) | Err(error: ServiceError)

  /**
   * A stored ticket as its table holds it: the technician and the equipment
   * are foreign keys (`None` for a null column), not copies.
   */
  datatype TicketRow = TicketRow(id: int, status: string, technician: Option<Cin>, equipment: Option<Ref>)

  /** The whole database: users, equipment and tickets. */
  datatype Store = Store(users: map<Cin, User>, equipments: map<Ref, Equipment>, tickets: seq<TicketRow>)

  /** What a state-changing operation yields: its outcome and the store afterwards. */
  datatype Step = Step(outcome: Outcome, store: Store)

  /** The result of `createEquipment`: the saved equipment and the store afterwards. */
  datatype Created = Created(saved: Equipment, store: Store)

  /** The user `cin` as a join from a ticket reaches it: its `cin` and e-mail; a dangling key reaches no one. */
  function PersonOf(s: Store, cin: Cin): (p: Option<TicketRepository.Person>)
    ensures p.Some? <==> cin in s.users
    ensures p.Some? ==> p.value == TicketRepository.Person(cin, s.users[cin].email)
  {
    if cin in s.users then Some(TicketRepository.Person(cin, s.users[cin].email)) else None
  }

  /** The equipment `ref` as a join from a ticket reaches it, with its current owner. */
  function EquipmentOf(s: Store, ref: Ref): (e: Option<TicketRepository.TicketEquipment>)
    ensures e.Some? <==> ref in s.equipments
    ensures e.Some? ==> e.value.ref == ref
    ensures e.Some? ==> e.value.owner == if s.equipments[ref].owner.Some? then PersonOf(s, s.equipments[ref].owner.value) else None
  {
    if ref !in s.equipments then None
    else
      var owner := s.equipments[ref].owner;
      Some(TicketRepository.TicketEquipment(ref, if owner.Some? then PersonOf(s, owner.value) else None))
  }

  /** A ticket row with its two joins followed in the current database. */
  function Resolve(s: Store, row: TicketRow): (t: TicketRepository.Ticket)
    ensures t.id == row.id && t.status == row.status
    ensures t.technician == if row.technician.Some? then PersonOf(s, row.technician.value) else None
    ensures t.equipment == if row.equipment.Some? then EquipmentOf(s, row.equipment.value) else None
  {
    TicketRepository.Ticket(row.id, row.status,
      if row.technician.Some? then PersonOf(s, row.technician.value) else None,
      if row.equipment.Some? then EquipmentOf(s, row.equipment.value) else None)
  }

  /** The tickets the repository's queries run over: every stored row, resolved, in storage order. */
  function Tickets(s: Store): (ts: seq<TicketRepository.Ticket>)
    ensures |ts| == |s.tickets|
    ensures forall i :: 0 <= i < |ts| ==> ts[i] == Resolve(s, s.tickets[i])
  {
    seq(|s.tickets|, i requires 0 <= i < |s.tickets| => Resolve(s, s.tickets[i]))
  }

  /** Every entity is stored under its own key. */
  predicate Keyed(s: Store)
  {
    && (forall c :: c in s.users ==> s.users[c].cin == c)
    && (forall r :: r in s.equipments ==> s.equipments[r].ref == r)
  }

  /** `clientRepository.findById(cin)` / `technicianRepository.findById(cin)` finds a user. */
  predicate HasRole(s: Store, cin: Cin, role: Role)
  {
    cin in s.users && s.users[cin].role == role
  }

  /** The position of the first occurrence of `x` in `l`. */
  function IndexOf(l: seq<Ref>, x: Ref): (i: nat)
    requires x in l
    ensures i < |l| && l[i] == x && x !in l[..i]
  {
    if l[0] == x then 0
    else
      var j := IndexOf(l[1..], x);
      assert l[..j + 1] == [l[0]] + l[1..][..j];
      j + 1
  }

  /**
   * `List.remove(x)`: the list without its first occurrence of `x`, the
   * rest in order; a list without `x` is returned unchanged.
   */
  function RemoveFirst(l: seq<Ref>, x: Ref): (r: seq<Ref>)
    ensures x !in l ==> r == l
    ensures x in l ==> |r| == |l| - 1
    ensures x in l ==> r[..IndexOf(l, x)] == l[..IndexOf(l, x)] && r[IndexOf(l, x)..] == l[IndexOf(l, x) + 1..]
    ensures multiset(r) == multiset(l) - multiset{x}
  {
    if x in l then
      var i := IndexOf(l, x);
      assert l == l[..i] + [x] + l[i + 1..];
      l[..i] + l[i + 1..]
    else
      l
  }

  /** Removing what was just appended, when it was not there before, restores the list. */
  lemma RemoveFirstAppended(l: seq<Ref>, x: Ref)
    requires x !in l
    ensures RemoveFirst(l + [x], x) == l
  {
    var i := IndexOf(l + [x], x);
    assert i == |l|;
    assert (l + [x])[..i] == l;
  }

  // ---------------------------------------------------------------------------
  // Specification of the operations

  /** `getEquipment(ref)`: the stored equipment, or EquipmentNotFound. */
  function Get(s: Store, ref: Ref): (r: Result<Equipment>)
    ensures ref in s.equipments <==> r.Ok?
    ensures r.Ok? ==> r.value == s.equipments[ref]
    ensures r.Err? ==> r.error == EquipmentNotFound
  {
    if ref in s.equipments then Ok(s.equipments[ref]) else Err(EquipmentNotFound)
  }

  /**
   * `createEquipment(e)`: whatever `e` held, it is saved (under its `ref`,
   * replacing any equipment stored there) as available, without owner and
   * created `today`; users and tickets are untouched.
   */
  function Create(s: Store, e: Equipment, today: LocalDate): (c: Created)
    ensures c.saved.ref == e.ref
    ensures c.saved.available && c.saved.owner == None && c.saved.creationDate == Some(today)
    ensures c.store.equipments.Keys == s.equipments.Keys + {e.ref}
    ensures c.store.equipments[e.ref] == c.saved
    ensures forall r :: r in s.equipments && r != e.ref ==> c.store.equipments[r] == s.equipments[r]
    ensures c.store.users == s.users && c.store.tickets == s.tickets
  {
    var saved := e.(creationDate := Some(today), available := true, owner := None);
    Created(saved, s.(equipments := s.equipments[e.ref := saved]))
  }

  /** `deleteEquipment(ref)`: EquipmentNotFound, or `ref` gone and every other entry kept. */
  function Delete(s: Store, ref: Ref): (t: Step)
    ensures t.outcome == Done <==> ref in s.equipments
    ensures t.outcome.Failed? ==> t.outcome.error == EquipmentNotFound && t.store == s
    ensures t.outcome == Done ==> t.store.equipments.Keys == s.equipments.Keys - {ref}
    ensures forall r :: r in s.equipments && r != ref ==> r in t.store.equipments && t.store.equipments[r] == s.equipments[r]
    ensures t.store.users == s.users && t.store.tickets == s.tickets
  {
    if ref in s.equipments then Step(Done, s.(equipments := s.equipments - {ref}))
    else Step(Failed(EquipmentNotFound), s)
  }

  /** `getOwnedEquipments(cin)`: the user's equipment list, or UserNotFound. */
  function Owned(s: Store, cin: Cin): (r: Result<seq<Ref>>)
    ensures cin in s.users <==> r.Ok?
    ensures r.Ok? ==> r.value == s.users[cin].equipment
    ensures r.Err? ==> r.error == UserNotFound
  {
    if cin in s.users then Ok(s.users[cin].equipment) else Err(UserNotFound)
  }

  /** `assignEquipmentTo{Client,Technician}(ref, cin)`, for the repository of `role`. */
  function Assign(s: Store, ref: Ref, cin: Cin, role: Role): Step
  {
    if !HasRole(s, cin, role) then Step(Failed(UserNotFound), s)
    else if ref !in s.equipments then Step(Failed(EquipmentNotFound), s)
    else if ref in s.users[cin].equipment then Step(Failed(EquipmentAlreadyExists), s)
    else
      var user := s.users[cin];
      var equipment := s.equipments[ref];
      Step(Done, s.(users := s.users[cin := user.(equipment := user.equipment + [ref])],
                    equipments := s.equipments[ref := equipment.(owner := Some(cin))]))
  }

  /** `removeEquipmentFrom{Client,Technician}(ref, cin)`, for the repository of `role`. */
  function Remove(s: Store, ref: Ref, cin: Cin, role: Role): Step
  {
    if !HasRole(s, cin, role) then Step(Failed(UserNotFound), s)
    else if ref !in s.equipments then Step(Failed(EquipmentNotFound), s)
    else if ref !in s.users[cin].equipment then Step(Failed(EquipmentAlreadyExists), s)
    else
      var user := s.users[cin];
      var equipment := s.equipments[ref];
      Step(Done, s.(users := s.users[cin := user.(equipment := RemoveFirst(user.equipment, ref))],
                    equipments := s.equipments[ref := equipment.(owner := None)]))
  }

  // ---------------------------------------------------------------------------
  // What the operations promise

  /**
   * The errors of an assignment, in their fixed order: an unknown user wins
   * over an unknown equipment, which wins over an equipment already in the
   * user's list. A failed assignment changes nothing.
   */
  lemma AssignErrors(s: Store, ref: Ref, cin: Cin, role: Role)
    ensures !HasRole(s, cin, role) ==> Assign(s, ref, cin, role).outcome == Failed(UserNotFound)
    ensures HasRole(s, cin, role) && ref !in s.equipments ==>
              Assign(s, ref, cin, role).outcome == Failed(EquipmentNotFound)
    ensures HasRole(s, cin, role) && ref in s.equipments && ref in s.users[cin].equipment ==>
              Assign(s, ref, cin, role).outcome == Failed(EquipmentAlreadyExists)
    ensures Assign(s, ref, cin, role).outcome == Done <==>
              HasRole(s, cin, role) && ref in s.equipments && ref !in s.users[cin].equipment
    ensures Assign(s, ref, cin, role).outcome.Failed? ==> Assign(s, ref, cin, role).store == s
  {
  }

  /**
   * A successful assignment appends the equipment to that user's list and
   * makes that user its owner; no other user's list, no other equipment,
   * no other field of this equipment and no ticket changes.
   */
  lemma AssignEffect(s: Store, ref: Ref, cin: Cin, role: Role)
    requires Assign(s, ref, cin, role).outcome == Done
    ensures var t := Assign(s, ref, cin, role).store;
      && t.users.Keys == s.users.Keys && t.equipments.Keys == s.equipments.Keys
      && t.users[cin].equipment == s.users[cin].equipment + [ref]
      && t.users[cin].cin == s.users[cin].cin && t.users[cin].role == role
      && t.equipments[ref].owner == Some(cin)
      && t.equipments[ref] == s.equipments[ref].(owner := Some(cin))
      && (forall c :: c in s.users && c != cin ==> t.users[c] == s.users[c])
      && (forall r :: r in s.equipments && r != ref ==> t.equipments[r] == s.equipments[r])
      && t.tickets == s.tickets
  {
  }

  /** The errors of a release, in the same fixed order; a failed release changes nothing. */
  lemma RemoveErrors(s: Store, ref: Ref, cin: Cin, role: Role)
    ensures !HasRole(s, cin, role) ==> Remove(s, ref, cin, role).outcome == Failed(UserNotFound)
    ensures HasRole(s, cin, role) && ref !in s.equipments ==>
              Remove(s, ref, cin, role).outcome == Failed(EquipmentNotFound)
    ensures HasRole(s, cin, role) && ref in s.equipments && ref !in s.users[cin].equipment ==>
              Remove(s, ref, cin, role).outcome == Failed(EquipmentAlreadyExists)
    ensures Remove(s, ref, cin, role).outcome == Done <==>
              HasRole(s, cin, role) && ref in s.equipments && ref in s.users[cin].equipment
    ensures Remove(s, ref, cin, role).outcome.Failed? ==> Remove(s, ref, cin, role).store == s
  {
  }

  /**
   * A successful release takes one occurrence of the equipment out of that
   * user's list and clears its owner; nothing else changes.
   */
  lemma RemoveEffect(s: Store, ref: Ref, cin: Cin, role: Role)
    requires Remove(s, ref, cin, role).outcome == Done
    ensures var t := Remove(s, ref, cin, role).store;
      && t.users.Keys == s.users.Keys && t.equipments.Keys == s.equipments.Keys
      && multiset(t.users[cin].equipment) == multiset(s.users[cin].equipment) - multiset{ref}
      && |t.users[cin].equipment| == |s.users[cin].equipment| - 1
      && t.users[cin] == s.users[cin].(equipment := RemoveFirst(s.users[cin].equipment, ref))
      && t.equipments[ref] == s.equipments[ref].(owner := None)
      && (forall c :: c in s.users && c != cin ==> t.users[c] == s.users[c])
      && (forall r :: r in s.equipments && r != ref ==> t.equipments[r] == s.equipments[r])
      && t.tickets == s.tickets
  {
  }

  /**
   * Assigning and then releasing the same equipment for the same user
   * restores that user's list exactly and leaves the equipment without an
   * owner (not with the owner it had before); everything else is as it was.
   */
  lemma AssignThenRemove(s: Store, ref: Ref, cin: Cin, role: Role)
    requires Assign(s, ref, cin, role).outcome == Done
    ensures var t := Remove(Assign(s, ref, cin, role).store, ref, cin, role);
      && t.outcome == Done
      && t.store.users == s.users
      && t.store.equipments == s.equipments[ref := s.equipments[ref].(owner := None)]
      && t.store.tickets == s.tickets
  {
    var user, equipment := s.users[cin], s.equipments[ref];
    var appended := user.(equipment := user.equipment + [ref]);
    var mid := Assign(s, ref, cin, role).store;
    AssignStore(s, ref, cin, role);
    assert mid.users[cin] == appended;
    RemoveStore(mid, ref, cin, role);
    RemoveFirstAppended(user.equipment, ref);
    assert appended.(equipment := RemoveFirst(appended.equipment, ref)) == user;
    OverwriteRestores(s.users, cin, appended);
    OverwriteTwice(s.equipments, ref, equipment.(owner := Some(cin)), equipment.(owner := None));
  }

  /** The store a successful assignment leaves behind, written out. */
  lemma AssignStore(s: Store, ref: Ref, cin: Cin, role: Role)
    requires Assign(s, ref, cin, role).outcome == Done
    ensures HasRole(s, cin, role) && ref in s.equipments && ref !in s.users[cin].equipment
    ensures Assign(s, ref, cin, role).store
      == s.(users := s.users[cin := s.users[cin].(equipment := s.users[cin].equipment + [ref])],
            equipments := s.equipments[ref := s.equipments[ref].(owner := Some(cin))])
  {
  }

  /** The store a release leaves behind when user, equipment and list entry are all there. */
  lemma RemoveStore(s: Store, ref: Ref, cin: Cin, role: Role)
    requires HasRole(s, cin, role) && ref in s.equipments && ref in s.users[cin].equipment
    ensures Remove(s, ref, cin, role).outcome == Done
    ensures Remove(s, ref, cin, role).store
      == s.(users := s.users[cin := s.users[cin].(equipment := RemoveFirst(s.users[cin].equipment, ref))],
            equipments := s.equipments[ref := s.equipments[ref].(owner := None)])
  {
  }

  /** Overwriting an entry and then writing its old value back gives the original map. */
  lemma OverwriteRestores<K, V>(m: map<K, V>, k: K, v: V)
    requires k in m
    ensures m[k := v][k := m[k]] == m
  {
  }

  /** The second of two writes to the same key wins. */
  lemma OverwriteTwice<K, V>(m: map<K, V>, k: K, v: V, w: V)
    ensures m[k := v][k := w] == m[k := w]
  {
  }

  /**
   * Assignment does not look at the equipment's current owner: an equipment
   * in another user's list stays there, while its owner becomes the new user.
   */
  lemma AssignKeepsPreviousHolder(s: Store, ref: Ref, cin: Cin, role: Role, other: Cin)
    requires Assign(s, ref, cin, role).outcome == Done
    requires other in s.users && other != cin && ref in s.users[other].equipment
    ensures ref in Assign(s, ref, cin, role).store.users[other].equipment
    ensures Assign(s, ref, cin, role).store.equipments[ref].owner == Some(cin)
  {
  }

  /**
   * Tickets reach equipment by reference, so an assignment is seen through
   * them: every ticket of that equipment now has the new user as its
   * equipment's owner, and the owner e-mail query returns it for that user.
   */
  lemma AssignSeenByTickets(s: Store, ref: Ref, cin: Cin, role: Role, i: int)
    requires Assign(s, ref, cin, role).outcome == Done
    requires 0 <= i < |s.tickets| && s.tickets[i].equipment == Some(ref)
    ensures var ts := Tickets(Assign(s, ref, cin, role).store);
      && ts[i].equipment == Some(TicketRepository.TicketEquipment(ref, Some(TicketRepository.Person(cin, s.users[cin].email))))
      && ts[i] in TicketRepository.GetByEquipmentOwnerEmail(ts, s.users[cin].email)
  {
    var t := Assign(s, ref, cin, role).store;
    AssignStore(s, ref, cin, role);
    assert Tickets(t)[i] == Resolve(t, t.tickets[i]);
  }

  /** After a release, no ticket of that equipment has an owner, so no owner e-mail query returns it. */
  lemma RemoveSeenByTickets(s: Store, ref: Ref, cin: Cin, role: Role, i: int, email: string)
    requires Remove(s, ref, cin, role).outcome == Done
    requires 0 <= i < |s.tickets| && s.tickets[i].equipment == Some(ref)
    ensures var ts := Tickets(Remove(s, ref, cin, role).store);
      && ts[i].equipment == Some(TicketRepository.TicketEquipment(ref, None))
      && ts[i] !in TicketRepository.GetByEquipmentOwnerEmail(ts, email)
  {
    var t := Remove(s, ref, cin, role).store;
    RemoveErrors(s, ref, cin, role);
    RemoveStore(s, ref, cin, role);
    assert Tickets(t)[i] == Resolve(t, t.tickets[i]);
  }

  /** A created equipment reads back as created, and is among the available ones. */
  lemma CreateThenGet(s: Store, e: Equipment, today: LocalDate)
    ensures var c := Create(s, e, today);
      && Get(c.store, e.ref) == Ok(c.saved)
      && c.saved in Available(c.store)
  {
  }

  /** After a successful delete the equipment no longer reads back. */
  lemma DeleteThenGet(s: Store, ref: Ref)
    requires Delete(s, ref).outcome == Done
    ensures Get(Delete(s, ref).store, ref) == Err(EquipmentNotFound)
  {
  }

  /** `getAvailableEquipments()`: the stored equipment whose `available` flag is set. */
  function Available(s: Store): (r: set<Equipment>)
    ensures forall e :: e in r <==> e in s.equipments.Values && e.available
  {
    set e | e in s.equipments.Values && e.available
  }

  /** Every operation keeps each entity under its own key. */
  lemma OperationsKeepKeyed(s: Store, e: Equipment, today: LocalDate, ref: Ref, cin: Cin, role: Role)
    requires Keyed(s)
    ensures Keyed(Create(s, e, today).store)
    ensures Keyed(Delete(s, ref).store)
    ensures Keyed(Assign(s, ref, cin, role).store)
    ensures Keyed(Remove(s, ref, cin, role).store)
  {
  }

  // ---------------------------------------------------------------------------
  // The service

  class EquipmentInfoService {
    var users: map<Cin, User>
    var equipments: map<Ref, Equipment>
    var tickets: seq<TicketRow>

    /** The database the repositories hold. */
    function State(): Store
      reads this
    {
      Store(users, equipments, tickets)
    }

    ghost predicate Valid()
      reads this
    {
      Keyed(State())
    }

    constructor (s: Store)
      requires Keyed(s)
      ensures Valid() && State() == s
    {
      users, equipments, tickets := s.users, s.equipments, s.tickets;
    }

    /**
     * `getAllEquipments()`: every stored equipment (the list's order is the
     * repository's and is not modelled); since each is stored under its own
     * `ref`, there is exactly one record per stored reference.
     */
    method GetAllEquipments() returns (r: set<Equipment>)
      requires Valid()
      ensures forall e :: e in r <==> e.ref in equipments && equipments[e.ref] == e
    {
      r := equipments.Values;
    }

    method GetOwnedEquipments(cin: Cin) returns (r: Result<seq<Ref>>)
      ensures r == Owned(State(), cin)
    {
      if cin in users {
        r := Ok(users[cin].equipment);
      } else {
        r := Err(UserNotFound);
      }
    }

    method GetFixedEquipments(cin: Cin) returns (r: Result<seq<TicketRepository.TicketEquipment>>)
      ensures !HasRole(State(), cin, Technician) ==> r == Err(UserNotFound)
      ensures HasRole(State(), cin, Technician) ==> r == Ok(TicketRepository.GetFixedEquipments(Tickets(State()), cin))
    {
      if cin in users && users[cin].role == Technician {
        r := Ok(TicketRepository.GetFixedEquipments(Tickets(State()), cin));
      } else {
        r := Err(UserNotFound);
      }
    }

    method GetFixingEquipments(cin: Cin) returns (r: Result<seq<TicketRepository.TicketEquipment>>)
      ensures !HasRole(State(), cin, Technician) ==> r == Err(UserNotFound)
      ensures HasRole(State(), cin, Technician) ==> r == Ok(TicketRepository.GetFixingEquipments(Tickets(State()), cin))
    {
      if cin in users && users[cin].role == Technician {
        r := Ok(TicketRepository.GetFixingEquipments(Tickets(State()), cin));
      } else {
        r := Err(UserNotFound);
      }
    }

    /** `createEquipment(e)`, with `LocalDate.now()` passed in as `today`. */
    method CreateEquipment(e: Equipment, today: LocalDate) returns (saved: Equipment)
      requires Valid()
      modifies this
      ensures Valid()
      ensures Created(saved, State()) == Create(old(State()), e, today)
    {
      saved := e.(creationDate := Some(today));
      saved := saved.(available := true);
      saved := saved.(owner := None);
      equipments := equipments[saved.ref := saved];
    }

    method GetAvailableEquipments() returns (r: set<Equipment>)
      ensures r == Available(State())
    {
      r := set e | e in equipments.Values && e.available;
    }

    method GetEquipment(ref: Ref) returns (r: Result<Equipment>)
      ensures r == Get(State(), ref)
    {
      if ref in equipments {
        r := Ok(equipments[ref]);
      } else {
        r := Err(EquipmentNotFound);
      }
    }

    method DeleteEquipment(ref: Ref) returns (o: Outcome)
      requires Valid()
      modifies this
      ensures Valid()
      ensures Step(o, State()) == Delete(old(State()), ref)
    {
      if ref in equipments {
        equipments := equipments - {ref};
        o := Done;
      } else {
        o := Failed(EquipmentNotFound);
      }
    }

    method AssignEquipmentToClient(ref: Ref, cin: Cin) returns (o: Outcome)
      requires Valid()
      modifies this
      ensures Valid()
      ensures Step(o, State()) == Assign(old(State()), ref, cin, Client)
    {
      o := AssignTo(ref, cin, Client);
    }

    method AssignEquipmentToTechnician(ref: Ref, cin: Cin) returns (o: Outcome)
      requires Valid()
      modifies this
      ensures Valid()
      ensures Step(o, State()) == Assign(old(State()), ref, cin, Technician)
    {
      o := AssignTo(ref, cin, Technician);
    }

    method RemoveEquipmentFromClient(ref: Ref, cin: Cin) returns (o: Outcome)
      requires Valid()
      modifies this
      ensures Valid()
      ensures Step(o, State()) == Remove(old(State()), ref, cin, Client)
    {
      o := RemoveFrom(ref, cin, Client);
    }

    method RemoveEquipmentFromTechnician(ref: Ref, cin: Cin) returns (o: Outcome)
      requires Valid()
      modifies this
      ensures Valid()
      ensures Step(o, State()) == Remove(old(State()), ref, cin, Technician)
    {
      o := RemoveFrom(ref, cin, Technician);
    }

    /** The body the two assign operations share, looked up in the repository of `role`. */
    method AssignTo(ref: Ref, cin: Cin, role: Role) returns (o: Outcome)
      requires Valid()
      modifies this
      ensures Valid()
      ensures Step(o, State()) == Assign(old(State()), ref, cin, role)
    {
      if !(cin in users && users[cin].role == role) {
        return Failed(UserNotFound);
      }
      if ref !in equipments {
        return Failed(EquipmentNotFound);
      }
      var user, equipment := users[cin], equipments[ref];
      if ref in user.equipment {
        return Failed(EquipmentAlreadyExists);
      }
      users := users[cin := user.(equipment := user.equipment + [ref])];
      equipments := equipments[ref := equipment.(owner := Some(cin))];
      o := Done;
    }

    /** The body the two remove operations share, looked up in the repository of `role`. */
    method RemoveFrom(ref: Ref, cin: Cin, role: Role) returns (o: Outcome)
      requires Valid()
      modifies this
      ensures Valid()
      ensures Step(o, State()) == Remove(old(State()), ref, cin, role)
    {
      if !(cin in users && users[cin].role == role) {
        return Failed(UserNotFound);
      }
      if ref !in equipments {
        return Failed(EquipmentNotFound);
      }
      var user, equipment := users[cin], equipments[ref];
      if ref !in user.equipment {
        return Failed(EquipmentAlreadyExists);
      }
      ghost var s := State();
      RemoveStore(s, ref, cin, role);
      OperationsKeepKeyed(s, equipment, LocalDate(0, 1, 1), ref, cin, role);
      users := users[cin := user.(equipment := RemoveFirst(user.equipment, ref))];
      equipments := equipments[ref := equipment.(owner := None)];
      o := Done;
    }
  }
}
