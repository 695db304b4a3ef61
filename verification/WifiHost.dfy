/** The connection state machine of arm_host/source/wifi_host.c:
    wifi_host_handleMsg, wifi_host_lwip_init, wifi_host_tick and
    wifi_host_get_status. The interface address is lwIP's to change, so it
    changes by events of its own. */
module WifiHost {
  import opened Words

  const READY := 1
  const CONNECT := 2
  const AP_MAC := 4
  // Commands to ARM7.
  const INITBUFS := 2
  const GET_DEVICE_MAC := 4
  const GET_AP_MAC := 5

  const NO_ADDRESS := 0xFFFF_FFFF

  datatype Status = Searching | AcquiringDhcp | Associated

  /** The statics of wifi_host.c, the lwIP clock, how often the two handlers were
      called, and the commands sent to ARM7 besides packets. */
  datatype Host = Host(
    initted: bool, lwip: bool, renew: bool, ip: U32,
    incCnt: nat, secCnt: nat, now: U32, connects: nat, reconnects: nat, sent: seq<U32>)

  /** A message of `len` bytes, with the outcome of netif_add for the case that
      it is reached; a timer tick; a new interface address. */
  datatype Event = Message(len: nat, cmd: U32, netifOk: bool) | Tick | Address(ip: U32)

  predicate Boot(h: Host) {
    !h.lwip && !h.renew && h.incCnt == 0 && h.secCnt == 0 && h.connects == 0 && h.reconnects == 0
  }

  function StatusOf(h: Host): (s: Status) {
    if !h.lwip then Searching else if h.ip != NO_ADDRESS then Associated else AcquiringDhcp
  }

  /** wifi_host_lwip_init: a renewal if lwIP is up, else the first start. */
  function LwipInit(h: Host, netifOk: bool): (r: Host) {
    if h.lwip then (if h.renew then h.(reconnects := h.reconnects + 1, renew := false) else h)
    else if netifOk then h.(connects := h.connects + 1, lwip := true, renew := false)
    else h
  }

  /** What READY makes ARM9 send. The stamping of the rings that goes with
      INITBUFS is modelled with the rings. */
  const ANNOUNCEMENT: seq<U32> := [GET_DEVICE_MAC, GET_AP_MAC, INITBUFS]

  function OnMessage(h: Host, len: nat, cmd: U32, netifOk: bool): (r: Host) {
    if len < 4 then h
    else if cmd == READY then h.(initted := true, sent := h.sent + ANNOUNCEMENT)
    else if cmd == CONNECT then h.(renew := true)
    else if cmd == AP_MAC then LwipInit(h, netifOk)
    else h
  }

  /** The prod at the end of a second. The condition reads (A && B) || C, so an
      address of 0 is enough, lwIP up or not. */
  predicate Prods(h: Host) {
    (h.lwip && h.ip == NO_ADDRESS) || h.ip == 0
  }

  function OnTick(h: Host): (r: Host) {
    var h1 := if h.incCnt == 1 then h.(now := Add32(h.now, 1), incCnt := 0) else h.(incCnt := h.incCnt + 1);
    if h1.secCnt != 1000 then h1.(secCnt := h1.secCnt + 1)
    else if Prods(h1) then h1.(secCnt := 0, reconnects := h1.reconnects + 1, renew := false)
    else h1.(secCnt := 0)
  }

  function Apply(h: Host, e: Event): (r: Host) {
    match e
    case Message(len, cmd, ok) => OnMessage(h, len, cmd, ok)
    case Tick => OnTick(h)
    case Address(ip) => h.(ip := ip)
  }

  function Run(h: Host, es: seq<Event>): (r: Host) {
    if |es| == 0 then h else Apply(Run(h, es[..|es| - 1]), es[|es| - 1])
  }

  function Ticks(es: seq<Event>): (n: nat) {
    if |es| == 0 then 0 else Ticks(es[..|es| - 1]) + if es[|es| - 1].Tick? then 1 else 0
  }

  function Connects(es: seq<Event>): (n: nat) {
    if |es| == 0 then 0
    else Connects(es[..|es| - 1]) +
         if es[|es| - 1].Message? && es[|es| - 1].len >= 4 && es[|es| - 1].cmd == CONNECT then 1 else 0
  }

  /** The counters and the clock after `n` ticks from `start`. */
  predicate ClockAt(h: Host, start: U32, n: nat) {
    h.incCnt == n % 2 && h.secCnt == n % 1001 && h.now == Add32(start, n / 2)
  }

  lemma TickClock(h: Host, start: U32, n: nat)
    requires ClockAt(h, start, n)
    ensures ClockAt(OnTick(h), start, n + 1)
  {
    Counts(n);
    ClockAdds(start, n / 2);
    hide Add32, Prods;
  }

  /** The tick counters divide the time exactly. */
  lemma {:induction false} Clocks(h: Host, es: seq<Event>)
    requires Boot(h)
    ensures ClockAt(Run(h, es), h.now, Ticks(es))
  {
    if |es| > 0 {
      var p := Run(h, es[..|es| - 1]);
      Clocks(h, es[..|es| - 1]);
      TickClock(p, h.now, Ticks(es[..|es| - 1]));
      hide Add32, OnTick;
    }
  }

  lemma Counts(n: nat)
    ensures (n + 1) % 2 == if n % 2 == 1 then 0 else n % 2 + 1
    ensures (n + 1) / 2 == if n % 2 == 1 then n / 2 + 1 else n / 2
    ensures (n + 1) % 1001 == if n % 1001 == 1000 then 0 else n % 1001 + 1
    ensures (n + 1) / 1001 == if n % 1001 == 1000 then n / 1001 + 1 else n / 1001
  {}

  lemma ClockAdds(now: U32, k: nat)
    ensures Add32(Add32(now, k), 1) == Add32(now, k + 1)
  {}

  /** The connect handler is called at most once, exactly when lwIP comes up. */
  lemma {:induction false} ConnectsOnce(h: Host, es: seq<Event>)
    requires Boot(h)
    ensures Run(h, es).connects == if Run(h, es).lwip then 1 else 0
  {
    if |es| > 0 {
      ConnectsOnce(h, es[..|es| - 1]);
      hide Add32;
    }
  }

  /** Once the status has left Searching it never comes back to it. */
  lemma {:induction false} NeverSearchingAgain(h: Host, es: seq<Event>, more: seq<Event>)
    requires StatusOf(Run(h, es)) != Searching
    ensures StatusOf(Run(h, es + more)) != Searching
    decreases |more|
  {
    if |more| == 0 {
      assert es + more == es;
    } else {
      NeverSearchingAgain(h, es, more[..|more| - 1]);
      assert (es + more)[..|es + more| - 1] == es + more[..|more| - 1];
      hide Add32;
    }
  }

  /** Every call of the reconnect handler is paid for by a CONNECT message or by
      1001 ticks. */
  lemma {:induction false} ReconnectsBounded(h: Host, es: seq<Event>)
    requires Boot(h)
    ensures Run(h, es).reconnects + (if Run(h, es).renew then 1 else 0) <= Connects(es) + Ticks(es) / 1001
  {
    if |es| > 0 {
      var before := es[..|es| - 1];
      ReconnectsBounded(h, before);
      Clocks(h, before);
      Counts(Ticks(before));
      hide Add32;
    }
  }

  function Readies(es: seq<Event>): (n: nat) {
    if |es| == 0 then 0
    else Readies(es[..|es| - 1]) +
         if es[|es| - 1].Message? && es[|es| - 1].len >= 4 && es[|es| - 1].cmd == READY then 1 else 0
  }

  /** Two requests for addresses and the announcement of the rings, `n` times. */
  function Announced(n: nat): (cs: seq<U32>) {
    if n == 0 then [] else Announced(n - 1) + [4, 5, 2]
  }

  /** Every READY, and nothing else, has the rings announced again, however late
      in the connection it comes. */
  lemma {:induction false} ReadyAnnounces(h: Host, es: seq<Event>)
    ensures Run(h, es).sent == h.sent + Announced(Readies(es))
    ensures Run(h, es).initted <==> h.initted || Readies(es) > 0
  {
    if |es| > 0 {
      var before := es[..|es| - 1];
      ReadyAnnounces(h, before);
      hide Add32, Prods;
      var n := Readies(before);
      assert (h.sent + Announced(n)) + ANNOUNCEMENT == h.sent + Announced(n + 1);
    }
  }

  /** With the address still 0, the prod runs every 1001 ticks although lwIP was
      never started: the condition's second half needs no lwIP. */
  lemma {:induction false} ProdsBeforeLwip(h: Host, es: seq<Event>)
    requires Boot(h) && h.ip == 0 && forall i :: 0 <= i < |es| ==> es[i].Tick?
    ensures Ticks(es) == |es|
    ensures var r := Run(h, es); r.reconnects == |es| / 1001 && !r.lwip && r.ip == 0
  {
    if |es| > 0 {
      var before := es[..|es| - 1];
      ProdsBeforeLwip(h, before);
      Clocks(h, before);
      Counts(|before|);
      hide Add32;
    }
  }

  // What the state is, in terms of the events alone.

  predicate IsConnect(e: Event) { e.Message? && e.len >= 4 && e.cmd == CONNECT }

  predicate IsApMac(e: Event) { e.Message? && e.len >= 4 && e.cmd == AP_MAC }

  /** An access-point message has come whose netif_add succeeded. */
  predicate Started(es: seq<Event>) {
    exists i :: 0 <= i < |es| && IsApMac(es[i]) && es[i].netifOk
  }

  /** The address set last. */
  function Current(ip: U32, es: seq<Event>): (r: U32) {
    if |es| == 0 then ip
    else if es[|es| - 1].Address? then es[|es| - 1].ip
    else Current(ip, es[..|es| - 1])
  }

  /** Event `i` is a tick that ends a second and finds lwIP without an address, or an
      address of 0. */
  predicate ProdAt(ip: U32, es: seq<Event>, i: nat)
    requires i < |es|
  {
    && es[i].Tick? && (Ticks(es[..i]) + 1) % 1001 == 0
    && ((Started(es[..i]) && Current(ip, es[..i]) == NO_ADDRESS) || Current(ip, es[..i]) == 0)
  }

  /** Event `i` settles a renewal that was asked for before it. */
  predicate SettlesAt(ip: U32, es: seq<Event>, i: nat)
    requires i < |es|
  {
    ProdAt(ip, es, i) || (IsApMac(es[i]) && (es[i].netifOk || Started(es[..i])))
  }

  /** A renewal has been asked for and not been settled since. */
  ghost predicate Asked(ip: U32, es: seq<Event>) {
    exists c :: 0 <= c < |es| && IsConnect(es[c]) && forall k :: c < k < |es| ==> !SettlesAt(ip, es, k)
  }

  /** Event `i` is an access-point message that finds lwIP up and a renewal asked for. */
  ghost predicate RenewsAt(ip: U32, es: seq<Event>, i: nat)
    requires i < |es|
  {
    IsApMac(es[i]) && Started(es[..i]) && Asked(ip, es[..i])
  }

  /** How many of the events call the reconnect handler. */
  ghost function Reconnects(ip: U32, es: seq<Event>): (n: nat) {
    if |es| == 0 then 0
    else
      var i := |es| - 1;
      Reconnects(ip, es[..i]) + if ProdAt(ip, es, i) || RenewsAt(ip, es, i) then 1 else 0
  }

  lemma StartedSnoc(es: seq<Event>)
    requires |es| > 0
    ensures var e := es[|es| - 1];
            Started(es) <==> Started(es[..|es| - 1]) || (IsApMac(e) && e.netifOk)
  {
    var before := es[..|es| - 1];
    if Started(before) {
      var i :| 0 <= i < |before| && IsApMac(before[i]) && before[i].netifOk;
      assert es[i] == before[i];
    }
  }

  lemma SettlesPrefix(ip: U32, es: seq<Event>, k: nat)
    requires k + 1 < |es|
    ensures SettlesAt(ip, es[..|es| - 1], k) == SettlesAt(ip, es, k)
  {
    assert es[..|es| - 1][..k] == es[..k];
  }

  lemma AskedSnoc(ip: U32, es: seq<Event>)
    requires |es| > 0
    ensures var i := |es| - 1;
            Asked(ip, es) <==> IsConnect(es[i]) || (Asked(ip, es[..i]) && !SettlesAt(ip, es, i))
  {
    var i := |es| - 1;
    forall k | 0 <= k < i
      ensures SettlesAt(ip, es[..i], k) == SettlesAt(ip, es, k)
    {
      SettlesPrefix(ip, es, k);
    }
    hide SettlesAt, IsConnect;
    assert forall k :: 0 <= k < i ==> es[..i][k] == es[k];
    if Asked(ip, es[..i]) && !SettlesAt(ip, es, i) {
      var c :| 0 <= c < |es[..i]| && IsConnect(es[..i][c]) &&
               forall k :: c < k < |es[..i]| ==> !SettlesAt(ip, es[..i], k);
      assert IsConnect(es[c]) && forall k :: c < k < |es| ==> !SettlesAt(ip, es, k);
    }
    if Asked(ip, es) && !IsConnect(es[i]) {
      var c :| 0 <= c < |es| && IsConnect(es[c]) && forall k :: c < k < |es| ==> !SettlesAt(ip, es, k);
      assert c < i && IsConnect(es[..i][c]);
      assert forall k :: c < k < i ==> !SettlesAt(ip, es[..i], k);
    }
  }

  /** The machine, exactly, over all events from the start: lwIP is up if and only
      if a start has succeeded, the address is the last one set, a renewal is
      pending if and only if one was asked for and not settled, and the reconnect
      handler has been called once for every prod and every renewal. */
  lemma {:induction false} HistoryExact(h: Host, es: seq<Event>)
    requires Boot(h)
    ensures var r := Run(h, es);
            && (r.lwip <==> Started(es)) && r.ip == Current(h.ip, es)
            && (r.renew <==> Asked(h.ip, es)) && r.reconnects == Reconnects(h.ip, es)
  {
    if |es| > 0 {
      var before, e := es[..|es| - 1], es[|es| - 1];
      HistoryExact(h, before);
      Clocks(h, before);
      Counts(Ticks(before));
      StartedSnoc(es);
      AskedSnoc(h.ip, es);
      hide Started, Asked, Add32;
      var p := Run(h, before);
      assert Run(h, es) == Apply(p, e);
      hide Run;
      match e
      case Tick => TickExact(h, es, p);
      case Address(ip) =>
      case Message(len, cmd, ok) =>
    }
  }

  /** A tick. */
  lemma TickExact(h: Host, es: seq<Event>, p: Host)
    requires |es| > 0 && es[|es| - 1].Tick?
    requires p.secCnt == Ticks(es[..|es| - 1]) % 1001 && p.ip == Current(h.ip, es[..|es| - 1])
    requires p.lwip <==> Started(es[..|es| - 1])
    ensures var r := OnTick(p);
            var prods := ProdAt(h.ip, es, |es| - 1);
            && r.lwip == p.lwip && r.ip == p.ip && r.renew == (p.renew && !prods)
            && r.reconnects == p.reconnects + if prods then 1 else 0
  {
    Counts(Ticks(es[..|es| - 1]));
    hide Started, Add32;
  }

  /** So the connect handler has run if and only if a start has succeeded, once. */
  lemma ConnectedExactly(h: Host, es: seq<Event>)
    requires Boot(h)
    ensures Run(h, es).connects == if Started(es) then 1 else 0
  {
    hide Run, Started;
    ConnectsOnce(h, es);
    HistoryExact(h, es);
  }

  /** And the status tells the three situations apart. */
  lemma StatusExact(h: Host, es: seq<Event>)
    requires Boot(h)
    ensures var st := StatusOf(Run(h, es));
            && (st.Searching? <==> !Started(es))
            && (st.Associated? <==> Started(es) && Current(h.ip, es) != 0xFFFF_FFFF)
            && (st.AcquiringDhcp? <==> Started(es) && Current(h.ip, es) == 0xFFFF_FFFF)
  {
    hide Run, Started, Current;
    HistoryExact(h, es);
  }

  /** The statics, as the handlers update them in place. */
  class Driver {
    var initted: bool
    var lwip: bool
    var renew: bool
    var ip: U32
    var incCnt: nat
    var secCnt: nat
    var now: U32
    var connects: nat
    var reconnects: nat
    var sent: seq<U32>

    ghost function State(): (h: Host)
      reads this
    {
      Host(initted, lwip, renew, ip, incCnt, secCnt, now, connects, reconnects, sent)
    }

    method StartLwip(netifOk: bool)
      modifies this
      ensures State() == LwipInit(old(State()), netifOk)
    {
      if lwip {
        if renew {
          reconnects := reconnects + 1;
          renew := false;
        }
        return;
      }
      if !netifOk {
        return;
      }
      connects := connects + 1;
      lwip := true;
      renew := false;
    }

    method HandleMsg(len: nat, cmd: U32, netifOk: bool)
      modifies this
      ensures State() == Apply(old(State()), Message(len, cmd, netifOk))
    {
      if len < 4 {
        return;
      }
      if cmd == READY {
        sent := sent + [GET_DEVICE_MAC];
        sent := sent + [GET_AP_MAC];
        sent := sent + [INITBUFS];
        initted := true;
      } else if cmd == CONNECT {
        renew := true;
      } else if cmd == AP_MAC {
        StartLwip(netifOk);
      }
    }

    method HandleTick()
      modifies this
      ensures State() == Apply(old(State()), Tick)
    {
      hide Add32;
      incCnt := incCnt + 1;
      if incCnt - 1 == 1 {
        now := Add32(now, 1);
        incCnt := 0;
      }
      secCnt := secCnt + 1;
      if secCnt - 1 == 1000 {
        secCnt := 0;
        if (lwip && ip == NO_ADDRESS) || ip == 0 {
          reconnects := reconnects + 1;
          renew := false;
        }
      }
    }

    method GetStatus() returns (s: Status)
      ensures s == StatusOf(State())
      ensures s.Searching? <==> !lwip
    {
      if lwip {
        if ip != NO_ADDRESS {
          return Associated;
        }
        return AcquiringDhcp;
      }
      return Searching;
    }
  }
}
