/**
 * The client's ticket list: how the tickets of `GET
 * /tickets/equipment-owner-tickets/{email}` become the rows of the table.
 */
module ClientTickets {
  import opened Wrappers
  import opened Json
  import Table

  /** A user in the response; only its `cin` is read. */
  datatype UserJson = UserJson(cin: Value)

  /** An equipment in the response; `owner` is `None` for `null`. */
  datatype EquipmentJson = EquipmentJson(ref: Value, owner: Option<UserJson>)

  /** A ticket in the response; `equipment` and `technician` are `None` for `null`. */
  datatype TicketJson = TicketJson(id: Value, status: Value, equipment: Option<EquipmentJson>, technician: Option<UserJson>)

  /** The columns of the table. */
  const RowKeys: set<string> := {"ticketId", "equipmentReference", "owner", "technician", "status"}

  /**
   * The mapping reads `ticket.equipment.ref`, `ticket.equipment.owner.cin` and
   * `ticket.technician.cin`, so it throws on a ticket without an equipment,
   * an equipment without an owner, or a ticket without a technician.
   */
  predicate Formattable(t: TicketJson)
  {
    t.equipment.Some? && t.equipment.value.owner.Some? && t.technician.Some?
  }

  /** `row` is the table row of ticket `t`. */
  predicate IsRowOf(row: Record, t: TicketJson)
    requires Formattable(t)
  {
    && row.Keys == RowKeys
    && row["ticketId"] == t.id
    && row["equipmentReference"] == t.equipment.value.ref
    && row["owner"] == t.equipment.value.owner.value.cin
    && row["technician"] == t.technician.value.cin
    && row["status"] == t.status
  }

  /**
   * `res.data.map(ticket => ({ ... }))`: one row per ticket, in order, when
   * every ticket can be formatted; `None` when the mapping throws.
   */
  function FormattedData(tickets: seq<TicketJson>): (r: Option<seq<Record>>)
    ensures r.Some? <==> forall i :: 0 <= i < |tickets| ==> Formattable(tickets[i])
    ensures r.Some? ==> |r.value| == |tickets| && forall i :: 0 <= i < |tickets| ==> IsRowOf(r.value[i], tickets[i])
    decreases |tickets|
  {
    if tickets == [] then Some([])
    else
      var t := tickets[0];
      var rest := FormattedData(tickets[1..]);
      if !Formattable(t) then None
      else if rest.None? then
        assert !forall i :: 0 <= i < |tickets| ==> Formattable(tickets[i]) by {
          var i :| 0 <= i < |tickets[1..]| && !Formattable(tickets[1..][i]);
          assert tickets[i + 1] == tickets[1..][i];
        }
        None
      else
        var row := map[
          "ticketId" := t.id,
          "equipmentReference" := t.equipment.value.ref,
          "owner" := t.equipment.value.owner.value.cin,
          "technician" := t.technician.value.cin,
          "status" := t.status];
        assert forall i :: 1 <= i < |tickets| ==> tickets[i] == tickets[1..][i - 1];
        Some([row] + rest.value)
  }

  /** The state the screen mounts with: no rows and no column filter. */
  function InitialState(): (t: Table.TableState)
    ensures t.data == [] && t.columnFilters == []
  {
    Table.Initial([])
  }

  /**
   * The response handler of `getAllTickets`: the formatted rows replace the
   * data; when the mapping throws, the error branch runs and the data stays.
   * The column filters are kept either way.
   */
  function TicketsLoaded(t: Table.TableState, tickets: seq<TicketJson>): (u: Table.TableState)
    ensures u.columnFilters == t.columnFilters
    ensures (forall i :: 0 <= i < |tickets| ==> Formattable(tickets[i])) ==>
              |u.data| == |tickets| && forall i :: 0 <= i < |tickets| ==> IsRowOf(u.data[i], tickets[i])
    ensures !(forall i :: 0 <= i < |tickets| ==> Formattable(tickets[i])) ==> u.data == t.data
  {
    match FormattedData(tickets)
    case Some(rows) => t.(data := rows)
    case None => t
  }
}
