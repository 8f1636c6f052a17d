/** The drawer's transitions, the boot's decision and the read gate (visor/src/state.rs). */
module Drawer {
  import opened Words

  datatype Tenant = Apps | AppInfo | Settings | Contacts | Sharing | Unseal | Devices

  datatype Drawer = Closed | Open(tenant: Tenant)

  datatype Action = Show(tenant: Tenant) | Close

  /** `pinned` is "nothing is running": the drawer then rests on the app list. */
  function Reduce(d: Drawer, action: Action, pinned: bool): (r: Drawer)
    ensures r == Closed <==> !pinned && action == Close
    ensures action.Show? ==> r == Open(action.tenant)
    ensures action == Close && pinned ==> r == Open(Apps)
  {
    match action
    case Show(t) => if d == Open(t) then d else Open(t)
    case Close => if pinned then Open(Apps) else Closed
  }

  datatype DeviceState = Fresh | Sealed | Opened

  datatype Facts = Facts(state: DeviceState, durable: bool, petname: string, othersKept: bool)

  function BootDrawer(f: Facts): Drawer {
    match f.state
    case Sealed => Open(Unseal)
    case Fresh => if !f.durable && f.petname == "" && f.othersKept then Open(Devices) else Closed
    case Opened => Closed
  }

  /** What the boot shows: a ceremony it raises, or the app list. */
  function BootShows(f: Facts): (d: Drawer)
    ensures d.Open? && d.tenant in {Unseal, Devices, Apps}
    ensures d.tenant == Unseal <==> f.state == Sealed
    ensures d.tenant == Devices <==> f.state == Fresh && !f.durable && f.petname == "" && f.othersKept
  {
    var raised := BootDrawer(f);
    if raised == Closed then Reduce(Closed, Close, true) else raised
  }

  // ---- The read gate -----------------------------------------------------

  type Gate = g: int | 0 <= g < U64

  function Bump(g: Gate): Gate {
    if g + 1 == U64 then 0 else g + 1
  }

  function Bumped(g: Gate, times: nat): Gate {
    if times == 0 then g else Bump(Bumped(g, times - 1))
  }

  lemma {:induction false} BumpedCounts(g: Gate, times: nat)
    ensures Bumped(g, times) == (g + times) % U64
  {
    if times != 0 {
      BumpedCounts(g, times - 1);
      NextRemainder(g + times - 1);
    }
  }

  lemma NextRemainder(n: nat)
    ensures (n + 1) % U64 == if n % U64 + 1 == U64 then 0 else n % U64 + 1
  {
  }

  /** A read may apply after some writes exactly when their number wrapped around: never
    * in fewer than 2^64 of them, unless there were none. */
  lemma GateStopsReads(g: Gate, writes: nat)
    ensures Bumped(g, writes) == g <==> writes % U64 == 0
  {
    BumpedCounts(g, writes);
    var sum := g + writes;
    if sum % U64 == g {
      assert writes == U64 * (sum / U64);
      WholeWraps(sum / U64, 0);
    }
    if writes % U64 == 0 {
      assert sum == U64 * (writes / U64) + g;
      WholeWraps(writes / U64, g);
    }
  }

  lemma WholeWraps(times: int, g: Gate)
    ensures (U64 * times + g) % U64 == g
  {
  }
}
