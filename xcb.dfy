/** The XCB platform layer (`src/linux_platform.cpp`): the event handler that
    stops the program when the window manager asks to delete the window, and
    the loop that polls events while the program runs. */
module Xcb {
  import opened CInt

  /** The XCB event codes the handler names. */
  const XCB_KEY_PRESS: int := 2
  const XCB_KEY_RELEASE: int := 3
  const XCB_BUTTON_PRESS: int := 4
  const XCB_BUTTON_RELEASE: int := 5
  const XCB_EXPOSE: int := 12
  const XCB_CLIENT_MESSAGE: int := 33

  /** The parts of `xcb_generic_event_t` the handler reads: `response_type`
      and, for a client message, `data.data32[0]`. */
  datatype Event = Event(responseType: bv8, data32First: int)

  /** `response_type & ~0x80`: the event code without the bit that marks
      events sent by another client. */
  function Kind(responseType: bv8): int
  {
    (responseType & 0x7F) as int
  }

  /** Setting or clearing the high bit does not change the code, and every
      code is below 128. */
  lemma KindIgnoresHighBit(t: bv8)
    ensures Kind(t | 0x80) == Kind(t) && Kind(t & 0x7F) == Kind(t)
    ensures 0 <= Kind(t) < 128
    ensures t < 0x80 ==> Kind(t) == t as int
  {
  }

  /** A client message carrying the WM_DELETE_WINDOW atom. */
  predicate Closes(e: Event, deleteWindowAtom: int)
  {
    Kind(e.responseType) == XCB_CLIENT_MESSAGE && e.data32First == deleteWindowAtom
  }

  /** Only a client message closes, whatever its high bit. */
  lemma ClosesOnlyOnClientMessage(e: Event, atom: int)
    ensures Closes(e, atom) ==> e.responseType == 33 || e.responseType == 33 + 0x80
    ensures Closes(e, atom) <==> Closes(e.(responseType := e.responseType | 0x80), atom)
  {
    KindIgnoresHighBit(e.responseType);
  }

  /** Whether some polled event in the sequence closes the window. */
  ghost predicate ClosesIn(events: seq<Option<Event>>, atom: int)
  {
    exists i :: 0 <= i < |events| && events[i].Some? && Closes(events[i].value, atom)
  }

  /** How many polls the loop handles: up to and including the first one
      that closes, or all of them. */
  function EventsHandled(events: seq<Option<Event>>, atom: int): (n: nat)
    ensures n <= |events| && (0 < |events| ==> 0 < n)
    ensures forall i :: 0 <= i < n - 1 ==> !(events[i].Some? && Closes(events[i].value, atom))
    ensures n < |events| ==> events[n - 1].Some? && Closes(events[n - 1].value, atom)
  {
    if |events| == 0 then 0
    else if events[0].Some? && Closes(events[0].value, atom) then 1
    else 1 + EventsHandled(events[1..], atom)
  }

  /** The globals: `running` and the WM_DELETE_WINDOW atom from
      `delwin_reply`. */
  class XcbClient {
    var running: bool
    const deleteWindowAtom: int

    /** `running` starts out false, as a static; the atom is the one the
        server returned. */
    constructor (deleteWindowAtom: int)
      ensures this.deleteWindowAtom == deleteWindowAtom && !running
    {
      this.deleteWindowAtom := deleteWindowAtom;
      running := false;
    }

    /** `handleEvent`: a null event is passed over; a client message with the
        delete atom clears `running`; every other event only logs. */
    method HandleEvent(event: Option<Event>)
      modifies this`running
      ensures running == (old(running) && !(event.Some? && Closes(event.value, deleteWindowAtom)))
      ensures event.None? ==> running == old(running)
    {
      if event.None? {
        return;
      }
      var e := event.value;
      var kind := Kind(e.responseType);
      if kind == XCB_CLIENT_MESSAGE {
        if e.data32First == deleteWindowAtom {
          running := false;
        }
      } else if kind == XCB_EXPOSE {
      } else if kind == XCB_KEY_PRESS {
      } else if kind == XCB_KEY_RELEASE {
      } else if kind == XCB_BUTTON_PRESS {
      } else if kind == XCB_BUTTON_RELEASE {
      } else {
        // "Unknown event"
      }
    }

    /** The `while(running)` loop of `main`, over the results of
        `xcb_poll_for_event` (`None` for a null event). It stops right after
        the first event that closes, and handles nothing after it. */
    method Run(events: seq<Option<Event>>) returns (handled: nat)
      modifies this`running
      ensures handled == EventsHandled(events, deleteWindowAtom)
      ensures !running <==> ClosesIn(events, deleteWindowAtom)
    {
      running := true;
      handled := 0;
      while running && handled < |events|
        invariant 0 <= handled <= |events|
        invariant running <==> !ClosesIn(events[..handled], deleteWindowAtom)
        invariant running ==> handled <= EventsHandled(events, deleteWindowAtom)
        invariant !running ==> handled == EventsHandled(events, deleteWindowAtom)
      {
        HandleEvent(events[handled]);
        assert events[..handled + 1] == events[..handled] + [events[handled]];
        handled := handled + 1;
      }
      if running {
        assert events[..handled] == events;
      } else {
        assert ClosesIn(events[..handled], deleteWindowAtom);
      }
    }
  }
}
