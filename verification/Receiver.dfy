/** The WooCommerce receiver: what a webhook does to the order it concerns. */
module Receiver {
  import opened Common
  import opened Store

  datatype OrderStatus = OnHold | Processing | CancelledOrder

  /** An order linked to an intent: its status, the metadata and the notes kept on it. */
  datatype Order = Order(status: OrderStatus, metaStatus: Status, metaHash: Option<string>, notes: seq<Status>)

  function NonEmpty(text: Option<string>, otherwise: Option<string>): Option<string> {
    if text.Some? && text.value != "" then text else otherwise
  }

  function HandleConfirmed(o: Order, p: Payload): Order {
    var stored := o.(metaStatus := Confirmed, metaHash := NonEmpty(p.data.hash, o.metaHash));
    if o.status == OnHold then stored.(status := Processing, notes := o.notes + [Confirmed]) else stored
  }

  function HandleTerminal(o: Order, st: Status): Order {
    var stored := o.(metaStatus := st);
    if o.status == OnHold then stored.(status := CancelledOrder, notes := o.notes + [st])
    else if o.metaStatus != st then stored.(notes := o.notes + [st])
    else stored
  }

  function Handle(o: Order, p: Payload): Order {
    match p.event
    case ConfirmedEvent => HandleConfirmed(o, p)
    case ExpiredEvent => HandleTerminal(o, Expired)
    case CancelledEvent => HandleTerminal(o, Cancelled)
  }

  class WooOrder {
    var status: OrderStatus
    var metaStatus: Status
    var metaHash: Option<string>
    var notes: seq<Status>

    constructor (o: Order)
      ensures View() == o
    {
      status, metaStatus, metaHash, notes := o.status, o.metaStatus, o.metaHash, o.notes;
    }

    function View(): Order
      reads this
    {
      Order(status, metaStatus, metaHash, notes)
    }

    method UpdateStatus(s: OrderStatus, note: Status)
      modifies this
      ensures View() == old(View()).(status := s, notes := old(notes) + [note])
    {
      status := s;
      notes := notes + [note];
    }

    method ConfirmedWebhook(p: Payload)
      modifies this
      ensures View() == HandleConfirmed(old(View()), p)
    {
      metaStatus := Confirmed;
      if p.data.hash.Some? && p.data.hash.value != "" {
        metaHash := p.data.hash;
      }
      if status == OnHold {
        UpdateStatus(Processing, Confirmed);
      }
    }

    method TerminalWebhook(st: Status)
      modifies this
      ensures View() == HandleTerminal(old(View()), st)
    {
      var previous := metaStatus;
      metaStatus := st;
      if status == OnHold {
        UpdateStatus(CancelledOrder, st);
      } else if previous != st {
        notes := notes + [st];
      }
    }

    method HandleWebhook(p: Payload)
      modifies this
      ensures View() == Handle(old(View()), p)
    {
      match p.event
      case ConfirmedEvent => ConfirmedWebhook(p);
      case ExpiredEvent => TerminalWebhook(Expired);
      case CancelledEvent => TerminalWebhook(Cancelled);
    }
  }

  /** The status a terminal intent gives an order that was still on hold. */
  function Outcome(s: Status): OrderStatus
    requires IsTerminal(s)
  {
    if s == Confirmed then Processing else CancelledOrder
  }

  /** Any number of repetitions of a webhook does what the first one did, notes included. */
  lemma {:induction false} RepeatsAreAbsorbed(o: Order, p: Payload, n: nat)
    ensures Repeat(Handle(o, p), p, n) == Handle(o, p)
    decreases n
  {
    if n > 0 { RepeatsAreAbsorbed(o, p, n - 1); }
  }

  function Repeat(o: Order, p: Payload, n: nat): Order
    decreases n
  {
    if n == 0 then o else Repeat(Handle(o, p), p, n - 1)
  }

  /** A webhook settles an order that is on hold and never moves one that is not. */
  lemma HandleMovesOnlyOnHold(o: Order, p: Payload, st: Status)
    requires IsTerminal(st) && p.event == EventOf(st)
    ensures Handle(o, p).status == if o.status == OnHold then Outcome(st) else o.status
    ensures Handle(o, p).metaStatus == st
  {
  }

  /** The hash is kept unless a confirmation brings one; a note is left for a move, or for a new final status. */
  lemma HandleNotes(o: Order, p: Payload, st: Status)
    requires IsTerminal(st) && p.event == EventOf(st)
    ensures Handle(o, p).notes == o.notes + [st] <==> o.status == OnHold || (st != Confirmed && o.metaStatus != st)
    ensures Handle(o, p).notes == o.notes + [st] || Handle(o, p).notes == o.notes
    ensures Handle(o, p).metaHash != o.metaHash ==> st == Confirmed && Handle(o, p).metaHash == p.data.hash
    ensures st == Confirmed && p.data.hash.Some? && p.data.hash != Some("") ==> Handle(o, p).metaHash == p.data.hash
  {
    assert |o.notes + [st]| != |o.notes|;
  }
}
