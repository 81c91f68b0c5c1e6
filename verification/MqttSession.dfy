/** industrial/src/mqtt_session.cc: the session object. Callbacks of the network thread
    run under the same mutex as receive, so each is an atomic step; those that run while
    receive waits are part of its argument. */
module MqttSessions {
  import opened Domain
  import opened MqttQueue
  import opened MqttSubscriptions

  /** What happens around one receive: whether the library reports the link up, the
      messages that arrive before the wait ends, whether the link is lost meanwhile, and
      whether the library still reports it up afterwards. */
  datatype Wait = Wait(libraryUp: bool, arrivals: seq<Message>, lost: bool, stillUp: bool)

  datatype Incoming = Error | Nothing | Got(m: Message)

  function PushedAll(queue: seq<Message>, ms: seq<Message>): seq<Message>
    decreases |ms|
  {
    if ms == [] then queue else Pushed(PushedAll(queue, ms[..|ms| - 1]), ms[|ms| - 1])
  }

  class MqttSession {
    var handleOpen: bool
    var connected: bool
    var lost: bool
    var queue: seq<Message>
    var lastError: string

    constructor ()
      ensures !handleOpen && !connected && !lost && queue == []
    {
      handleOpen, connected, lost, queue, lastError := false, false, false, [], "";
    }

    /** From connect to close, the session is connected unless its link is lost. */
    ghost predicate Open()
      reads this`handleOpen, this`connected, this`lost
    {
      handleOpen && (connected <==> !lost)
    }

    ghost predicate LinkUp()
      reads this`handleOpen, this`connected, this`lost
    {
      Open() && !lost
    }

    method OnMessage(m: Message)
      modifies this`queue
      ensures queue == Pushed(old(queue), m)
    {
      if |queue| >= MAX_QUEUED {
        queue := queue[1..];
      }
      queue := queue + [m];
    }

    method OnMessages(ms: seq<Message>)
      modifies this`queue
      ensures queue == PushedAll(old(queue), ms)
    {
      for k := 0 to |ms|
        invariant queue == PushedAll(old(queue), ms[..k])
      {
        assert ms[..k + 1][..k] == ms[..k];
        OnMessage(ms[k]);
      }
      assert ms[..|ms|] == ms;
    }

    method OnConnectionLost(cause: string)
      modifies this`connected, this`lost, this`lastError
      ensures !connected && lost && lastError != ""
      ensures old(lastError) != "" ==> lastError == old(lastError)
    {
      connected, lost := false, true;
      if lastError == "" {
        lastError := if cause != "" then "MQTT connection lost: " + cause else "MQTT connection lost";
      }
    }

    method Connect(clientId: string, accepted: bool, error: string) returns (ok: bool)
      modifies this
      ensures ok <==> clientId != "" && accepted
      ensures queue == [] && !lost && connected == ok && handleOpen == ok
    {
      Close();
      lastError := "";
      if clientId == "" {
        lastError := "missing MQTT host, port, or client id";
        return false;
      }
      if !accepted {
        lastError := if error == "" then "MQTT connect timed out" else error;
        return false;
      }
      handleOpen, connected := true, true;
      return true;
    }

    /** One subscribe request, at the clamped level; it fails unless acknowledged. */
    method Subscribe(topic: string, qos: int, acked: bool) returns (ok: bool, ghost sent: Option<Sub>)
      modifies this`lastError
      ensures ok <==> handleOpen && topic != "" && acked
      ensures sent == if handleOpen && topic != "" then Some(Sub(topic, ClampQos(qos))) else None
    {
      if !handleOpen || topic == "" {
        lastError := "MQTT subscribe failed: no session or topic";
        return false, None;
      }
      if !acked && lastError == "" {
        lastError := "MQTT subscribe timed out";
      }
      return acked, Some(Sub(topic, ClampQos(qos)));
    }

    method Close()
      modifies this`handleOpen, this`connected, this`lost, this`queue
      ensures !handleOpen && !connected && !lost && queue == []
    {
      handleOpen, connected, lost, queue := false, false, false, [];
    }

    method IsConnected(libraryUp: bool) returns (up: bool)
      ensures up <==> handleOpen && connected && !lost && libraryUp
    {
      return handleOpen && connected && !lost && libraryUp;
    }

    /** The front of the queue, unless the link is lost. */
    method Receive(w: Wait) returns (incoming: Incoming)
      modifies this`connected, this`lost, this`queue, this`lastError
      ensures incoming.Error? <==> old(lost) || (handleOpen && !w.libraryUp && old(connected)) || w.lost
      ensures incoming.Error? ==> lost && lastError != ""
      ensures !incoming.Error? ==> lost == old(lost) && connected == old(connected)
      ensures !incoming.Error? ==>
        var q := PushedAll(old(queue), w.arrivals);
        if q == [] then incoming == Nothing && queue == []
        else incoming == Got(q[0]) && queue == q[1..]
    {
      if lost || (handleOpen && !w.libraryUp && connected) {
        if lastError == "" {
          lastError := "MQTT broker disconnected";
        }
        lost, connected := true, if lost then connected else false;
        return Error;
      }
      OnMessages(w.arrivals);
      if w.lost {
        OnConnectionLost("");
        return Error;
      }
      if queue == [] {
        return Nothing;
      }
      incoming := Got(queue[0]);
      queue := queue[1..];
    }
  }
}
