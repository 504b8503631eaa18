/**
 * The device behind the arbiter: a handle that is opened when first needed and
 * forgotten when a call on it fails, and the receive stream hanging off it. Driver
 * calls may fail at any time; whether one does is a parameter of the operation that
 * makes it.
 */
module Radio {
  import opened Wrappers

  const MAX_TX_GAIN: nat := 47

  /** The handle, and the frequency the live receive stream was started at. */
  datatype Handle = Handle(open: bool, rx: Option<nat>)

  /** No handle, and so no stream. */
  const CLOSED: Handle := Handle(false, None)

  /** How the driver calls of one operation turn out. */
  datatype Luck = Luck(opens: bool, works: bool, halts: bool)

  function Started(h: Handle, frequency: nat, luck: Luck): (Handle, bool) {
    if !h.open && !luck.opens then (h, false)
    else if luck.works then (Handle(true, Some(frequency)), true)
    else (CLOSED, false)
  }

  function DidRead(h: Handle, luck: Luck): (Handle, bool) {
    if h.rx.None? then (h, false)
    else if luck.works then (h, true)
    else (CLOSED, false)
  }

  function Stopped(h: Handle, luck: Luck): (Handle, bool) {
    if !h.open then (Handle(false, None), true)
    else if luck.halts then (Handle(true, None), true)
    else (CLOSED, false)
  }

  function Sent(h: Handle, gain: nat, luck: Luck): (Handle, bool) {
    if gain > MAX_TX_GAIN || (!h.open && !luck.opens) then (h, false)
    else if luck.works && luck.halts then (Handle(true, h.rx), true)
    else (CLOSED, false)
  }

  function Described(h: Handle, luck: Luck): (Handle, bool) {
    if !h.open && !luck.opens then (h, false)
    else if luck.works then (Handle(true, h.rx), true)
    else (CLOSED, false)
  }

  class Device {
    var open: bool
    var rx: Option<nat>

    function View(): Handle
      reads this
    {
      Handle(open, rx)
    }

    constructor ()
      ensures View() == CLOSED
    {
      open, rx := false, None;
    }

    /** Opens the device unless it is open already. */
    method GetHandle(luck: Luck) returns (ok: bool)
      modifies this
      ensures ok == (old(open) || luck.opens)
      ensures rx == old(rx) && open == ok
    {
      if open {
        return true;
      }
      open := luck.opens;
      ok := open;
    }

    method Invalidate()
      modifies this
      ensures View() == CLOSED
    {
      rx := None;
      open := false;
    }

    method StartRx(frequency: nat, luck: Luck) returns (ok: bool)
      modifies this
      ensures ok <==> (old(open) || luck.opens) && luck.works
      ensures ok ==> View() == Handle(true, Some(frequency))
      ensures !ok ==> View() == if old(open) || luck.opens then CLOSED else old(View())
      ensures (View(), ok) == Started(old(View()), frequency, luck)
    {
      ok := GetHandle(luck);
      if !ok {
        return;
      }
      if luck.works {
        rx := Some(frequency);
      } else {
        Invalidate();
        ok := false;
      }
    }

    method Read(luck: Luck) returns (ok: bool)
      modifies this
      ensures ok <==> old(rx).Some? && luck.works
      ensures View() == if ok || old(rx).None? then old(View()) else CLOSED
      ensures (View(), ok) == DidRead(old(View()), luck)
    {
      if rx.None? {
        return false;
      }
      ok := luck.works;
      if !ok {
        Invalidate();
      }
    }

    method Stop(luck: Luck) returns (ok: bool)
      modifies this
      ensures ok <==> !old(open) || luck.halts
      ensures rx.None? && open == (old(open) && ok)
      ensures (View(), ok) == Stopped(old(View()), luck)
    {
      rx := None;
      if !open {
        return true;
      }
      ok := luck.halts;
      if !ok {
        Invalidate();
      }
    }

    method Transmit(gain: nat, luck: Luck) returns (ok: bool)
      modifies this
      ensures ok <==> gain <= MAX_TX_GAIN && (old(open) || luck.opens) && luck.works && luck.halts
      ensures ok ==> open && rx == old(rx)
      ensures !ok ==> View() == if gain <= MAX_TX_GAIN && (old(open) || luck.opens) then CLOSED else old(View())
      ensures (View(), ok) == Sent(old(View()), gain, luck)
    {
      if gain > MAX_TX_GAIN {
        return false;
      }
      ok := GetHandle(luck);
      if !ok {
        return;
      }
      // Stopped before the outcome is looked at.
      if !luck.halts {
        Invalidate();
        return false;
      }
      ok := luck.works;
      if !ok {
        Invalidate();
      }
    }

    method Describe(luck: Luck) returns (ok: bool)
      modifies this
      ensures ok <==> (old(open) || luck.opens) && luck.works
      ensures ok ==> open && rx == old(rx)
      ensures !ok ==> View() == if old(open) || luck.opens then CLOSED else old(View())
      ensures (View(), ok) == Described(old(View()), luck)
    {
      ok := GetHandle(luck);
      if !ok {
        return;
      }
      ok := luck.works;
      if !ok {
        Invalidate();
      }
    }
  }
}
