/**
 * The ticket repository's declared queries, as selections over the list of
 * stored tickets. Each ticket carries its technician and its equipment (with
 * the equipment's owner) as the join in the query would find them.
 *
 * None of the queries has an ORDER BY, so the order of their results is not
 * fixed: the functions below return matching tickets in storage order, and
 * every property about them is stated on multisets, which ignore order.
 */
module TicketRepository {
  import opened Wrappers

  /** A user as the queries see it: the `cin` key and the e-mail address. */
  datatype Person = Person(cin: string, email: string)

  /** An equipment as a ticket references it; `owner` is `None` for no owner. */
  datatype TicketEquipment = TicketEquipment(ref: string, owner: Option<Person>)

  /** A stored ticket; a ticket may have no technician or no equipment yet. */
  datatype Ticket = Ticket(id: int, status: string, technician: Option<Person>, equipment: Option<TicketEquipment>)

  const Closed := "closed"
  const Underway := "underway"
  const Waiting := "waiting"

  /**
   * The tickets of `ts` that satisfy `p`, each as often as it is stored:
   * exactly what a WHERE clause selects.
   */
  function Where(ts: seq<Ticket>, p: Ticket -> bool): (r: seq<Ticket>)
    ensures |r| <= |ts|
    ensures forall t :: t in r <==> t in ts && p(t)
    ensures forall t :: multiset(r)[t] == if p(t) then multiset(ts)[t] else 0
  {
    if ts == [] then []
    else
      assert ts == [ts[0]] + ts[1..];
      (if p(ts[0]) then [ts[0]] else []) + Where(ts[1..], p)
  }

  /** `t.technician.cin = :cin AND t.status = '<status>'`; a ticket without a technician never matches. */
  predicate HandledBy(t: Ticket, cin: string, status: string)
  {
    t.technician.Some? && t.technician.value.cin == cin && t.status == status
  }

  /**
   * `SELECT t.equipment FROM Ticket t WHERE t.technician.cin = :cin AND t.status = :status`,
   * one entry per matching ticket that has an equipment (the path `t.equipment`
   * is an inner join, so a ticket without one yields no row).
   */
  function EquipmentsHandledBy(ts: seq<Ticket>, cin: string, status: string): (r: seq<TicketEquipment>)
    ensures |r| == |Where(ts, t => HandledBy(t, cin, status) && t.equipment.Some?)|
  {
    if ts == [] then []
    else
      var rest := EquipmentsHandledBy(ts[1..], cin, status);
      if HandledBy(ts[0], cin, status) && ts[0].equipment.Some? then [ts[0].equipment.value] + rest else rest
  }

  /** An equipment is selected exactly when some matching ticket holds it. */
  lemma {:induction false} HandledByMembers(ts: seq<Ticket>, cin: string, status: string)
    ensures forall e :: e in EquipmentsHandledBy(ts, cin, status) <==>
                        exists t :: t in ts && HandledBy(t, cin, status) && t.equipment == Some(e)
    decreases |ts|
  {
    if ts != [] {
      HandledByMembers(ts[1..], cin, status);
      assert forall t :: t in ts <==> t == ts[0] || t in ts[1..];
    }
  }

  /** Each equipment appears in the selection once per matching ticket that holds it. */
  lemma HandledByCount(ts: seq<Ticket>, cin: string, status: string)
    ensures forall e :: multiset(EquipmentsHandledBy(ts, cin, status))[e]
                     == |Where(ts, t => HandledBy(t, cin, status) && t.equipment == Some(e))|
  {
    forall e {
      HandledByCountOf(ts, cin, status, e);
    }
  }

  lemma {:induction false} HandledByCountOf(ts: seq<Ticket>, cin: string, status: string, e: TicketEquipment)
    ensures multiset(EquipmentsHandledBy(ts, cin, status))[e]
         == |Where(ts, t => HandledBy(t, cin, status) && t.equipment == Some(e))|
    decreases |ts|
  {
    if ts != [] {
      HandledByCountOf(ts[1..], cin, status, e);
      HandledByHead(ts, cin, status, e);
    }
  }

  /** The first ticket adds one occurrence of `e` exactly when it is a matching ticket holding `e`. */
  lemma HandledByHead(ts: seq<Ticket>, cin: string, status: string, e: TicketEquipment)
    requires ts != []
    ensures multiset(EquipmentsHandledBy(ts, cin, status))[e]
         == (if HandledBy(ts[0], cin, status) && ts[0].equipment == Some(e) then 1 else 0)
            + multiset(EquipmentsHandledBy(ts[1..], cin, status))[e]
  {
    assert multiset(EquipmentsHandledBy(ts, cin, status))
        == multiset(if HandledBy(ts[0], cin, status) && ts[0].equipment.Some? then [ts[0].equipment.value] else [])
         + multiset(EquipmentsHandledBy(ts[1..], cin, status));
  }

  /** `getFixedEquipments(cin)`: the equipment of the closed tickets of technician `cin`. */
  function GetFixedEquipments(ts: seq<Ticket>, cin: string): (r: seq<TicketEquipment>)
    ensures |r| == |Where(ts, t => HandledBy(t, cin, Closed) && t.equipment.Some?)|
    ensures forall e :: e in r <==> exists t :: t in ts && HandledBy(t, cin, Closed) && t.equipment == Some(e)
    ensures forall e :: multiset(r)[e] == |Where(ts, t => HandledBy(t, cin, Closed) && t.equipment == Some(e))|
  {
    HandledByCount(ts, cin, Closed);
    HandledByMembers(ts, cin, Closed);
    EquipmentsHandledBy(ts, cin, Closed)
  }

  /** `getFixingEquipments(cin)`: the equipment of the underway tickets of technician `cin`. */
  function GetFixingEquipments(ts: seq<Ticket>, cin: string): (r: seq<TicketEquipment>)
    ensures |r| == |Where(ts, t => HandledBy(t, cin, Underway) && t.equipment.Some?)|
    ensures forall e :: e in r <==> exists t :: t in ts && HandledBy(t, cin, Underway) && t.equipment == Some(e)
    ensures forall e :: multiset(r)[e] == |Where(ts, t => HandledBy(t, cin, Underway) && t.equipment == Some(e))|
  {
    HandledByCount(ts, cin, Underway);
    HandledByMembers(ts, cin, Underway);
    EquipmentsHandledBy(ts, cin, Underway)
  }

  /** `getClosedTickets()`: every closed ticket and nothing else. */
  function GetClosedTickets(ts: seq<Ticket>): (r: seq<Ticket>)
    ensures forall t :: t in r ==> t in ts && t.status == Closed
    ensures forall t :: t in ts && t.status == Closed ==> t in r
    ensures forall t :: multiset(r)[t] == if t.status == Closed then multiset(ts)[t] else 0
  {
    Where(ts, (t: Ticket) => t.status == Closed)
  }

  /** `getUnderwayTickets()`: every underway ticket and nothing else. */
  function GetUnderwayTickets(ts: seq<Ticket>): (r: seq<Ticket>)
    ensures forall t :: t in r ==> t in ts && t.status == Underway
    ensures forall t :: t in ts && t.status == Underway ==> t in r
    ensures forall t :: multiset(r)[t] == if t.status == Underway then multiset(ts)[t] else 0
  {
    Where(ts, (t: Ticket) => t.status == Underway)
  }

  /** `getWaitingTickets()`: every waiting ticket and nothing else. */
  function GetWaitingTickets(ts: seq<Ticket>): (r: seq<Ticket>)
    ensures forall t :: t in r ==> t in ts && t.status == Waiting
    ensures forall t :: t in ts && t.status == Waiting ==> t in r
    ensures forall t :: multiset(r)[t] == if t.status == Waiting then multiset(ts)[t] else 0
  {
    Where(ts, (t: Ticket) => t.status == Waiting)
  }

  /** The derived query `getByTechnicianEmail(email)`: the tickets whose technician has that e-mail. */
  function GetByTechnicianEmail(ts: seq<Ticket>, email: string): (r: seq<Ticket>)
    ensures forall t :: t in r <==> t in ts && t.technician.Some? && t.technician.value.email == email
    ensures forall t :: multiset(r)[t] <= multiset(ts)[t]
  {
    Where(ts, (t: Ticket) => t.technician.Some? && t.technician.value.email == email)
  }

  /** The derived query `getByEquipmentOwnerEmail(email)`: the tickets whose equipment's owner has that e-mail. */
  function GetByEquipmentOwnerEmail(ts: seq<Ticket>, email: string): (r: seq<Ticket>)
    ensures forall t :: t in r <==> t in ts && t.equipment.Some? && t.equipment.value.owner.Some?
                                       && t.equipment.value.owner.value.email == email
    ensures forall t :: multiset(r)[t] <= multiset(ts)[t]
  {
    Where(ts, (t: Ticket) => t.equipment.Some? && t.equipment.value.owner.Some? && t.equipment.value.owner.value.email == email)
  }

  /** The closed, underway and waiting selections never share a ticket. */
  lemma StatusSelectionsDisjoint(ts: seq<Ticket>)
    ensures multiset(GetClosedTickets(ts)) * multiset(GetUnderwayTickets(ts)) == multiset{}
    ensures multiset(GetClosedTickets(ts)) * multiset(GetWaitingTickets(ts)) == multiset{}
    ensures multiset(GetUnderwayTickets(ts)) * multiset(GetWaitingTickets(ts)) == multiset{}
  {
    assert Closed[0] != Underway[0] && Closed[0] != Waiting[0] && Underway[0] != Waiting[0];
    DisjointStatuses(multiset(GetClosedTickets(ts)), multiset(GetUnderwayTickets(ts)), Closed, Underway);
    DisjointStatuses(multiset(GetClosedTickets(ts)), multiset(GetWaitingTickets(ts)), Closed, Waiting);
    DisjointStatuses(multiset(GetUnderwayTickets(ts)), multiset(GetWaitingTickets(ts)), Underway, Waiting);
  }

  /** Two collections of tickets of two different statuses share no ticket. */
  lemma DisjointStatuses(a: multiset<Ticket>, b: multiset<Ticket>, x: string, y: string)
    requires x != y
    requires forall t: Ticket :: t.status != x ==> a[t] == 0
    requires forall t: Ticket :: t.status != y ==> b[t] == 0
    ensures a * b == multiset{}
  {
    assert forall t :: (a * b)[t] == 0;
  }

  /** Together the three selections hold no ticket more often than it is stored, so at most all tickets. */
  lemma StatusSelectionsWithinTickets(ts: seq<Ticket>)
    ensures multiset(GetClosedTickets(ts)) + multiset(GetUnderwayTickets(ts)) + multiset(GetWaitingTickets(ts))
            <= multiset(ts)
    ensures |GetClosedTickets(ts)| + |GetUnderwayTickets(ts)| + |GetWaitingTickets(ts)| <= |ts|
  {
    var c, u, w := multiset(GetClosedTickets(ts)), multiset(GetUnderwayTickets(ts)), multiset(GetWaitingTickets(ts));
    assert forall t :: (c + u + w)[t] <= multiset(ts)[t];
    MultisetSubsetSize(c + u + w, multiset(ts));
  }

  /** A sub-multiset is no larger. */
  lemma {:induction false} MultisetSubsetSize(a: multiset<Ticket>, b: multiset<Ticket>)
    requires a <= b
    ensures |a| <= |b|
    decreases |a|
  {
    if a != multiset{} {
      var x :| x in a;
      MultisetSubsetSize(a - multiset{x}, b - multiset{x});
    }
  }

  /**
   * For one technician, the tickets behind `getFixedEquipments` and those
   * behind `getFixingEquipments` never overlap: one is selected on status
   * 'closed', the other on 'underway'.
   */
  lemma FixedAndFixingDisjoint(ts: seq<Ticket>, cin: string)
    ensures multiset(Where(ts, t => HandledBy(t, cin, Closed) && t.equipment.Some?))
          * multiset(Where(ts, t => HandledBy(t, cin, Underway) && t.equipment.Some?)) == multiset{}
  {
    var a := multiset(Where(ts, t => HandledBy(t, cin, Closed) && t.equipment.Some?));
    var b := multiset(Where(ts, t => HandledBy(t, cin, Underway) && t.equipment.Some?));
    assert forall t :: (a * b)[t] == 0;
  }
}
