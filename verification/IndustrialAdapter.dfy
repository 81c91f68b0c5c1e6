/** An adapter as the ICP runtime sees it: an object with the contract's state, whose
    operations take the outside world's reply. The protocol adapters refine it. */
module IndustrialAdapters {
  import opened Domain
  import opened AdapterContract

  class IndustrialAdapter {
    const id: string
    const protocol: string
    var state: ConnectionState
    var lastError: string
    var bound: seq<EquipmentState>

    constructor (id: string, protocol: string)
      ensures View() == AdapterView(id, protocol, Disconnected, "", [])
    {
      this.id, this.protocol := id, protocol;
      state, lastError, bound := Disconnected, "", [];
    }

    function View(): AdapterView
      reads this
    {
      AdapterView(id, protocol, state, lastError, bound)
    }

    method Connect(reply: ConnectReply) returns (ok: bool)
      modifies this
      ensures ok == ConnectOk(old(View()), reply)
      ensures View() == AfterConnect(old(View()), reply)
    {
      Become(AfterConnect(View(), reply));
      ok := state == Connected;
    }

    method Disconnect()
      modifies this
      ensures View() == AfterDisconnect(old(View()))
    {
      Become(AfterDisconnect(View()));
    }

    method Poll(reply: PollReply)
      modifies this
      ensures View() == AfterPoll(old(View()), reply)
    {
      Become(AfterPoll(View(), reply));
    }

    method EquipmentById(equipmentId: string) returns (found: Option<EquipmentState>)
      ensures found == if equipmentId in ExposedIds(View())
                       then Some(FirstWithId(Exposed(View()), equipmentId)) else None
    {
      if state == Disconnected {
        return None;
      }
      for i := 0 to |bound|
        invariant forall j :: 0 <= j < i ==> bound[j].id != equipmentId
      {
        if bound[i].id == equipmentId {
          FirstAt(bound, equipmentId, i);
          return Some(bound[i]);
        }
      }
      return None;
    }

    method Become(v: AdapterView)
      requires v.id == id && v.protocol == protocol
      modifies this
      ensures View() == v
    {
      state, lastError, bound := v.state, v.lastError, v.bound;
    }
  }

  lemma {:induction false} FirstAt(es: seq<EquipmentState>, id: string, i: nat)
    requires i < |es| && es[i].id == id
    requires forall j :: 0 <= j < i ==> es[j].id != id
    ensures id in IdsOf(es) && FirstWithId(es, id) == es[i]
  {
    if i > 0 {
      assert id in IdsOf(es);
      FirstAt(es[1..], id, i - 1);
    }
  }
}
