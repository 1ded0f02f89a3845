/** The server's side of at-most-once RPC: the window of remembered requests. */
module RpcServer {

  type Bytes = string

  /** A remembered request; `present` once its reply is recorded. */
  datatype Entry = Entry(xid: nat, present: bool, buf: Bytes)

  datatype Verdict = New | InProgress | Done(buf: Bytes) | Forgotten

  /** The walk over the window: it stops at the request itself and drops recorded
      replies that the client has acknowledged. */
  datatype Walked = Hit(win: seq<Entry>, e: Entry) | Miss(win: seq<Entry>) {
    function Prepend(e: Entry): (r: Walked) {
      match this
      case Hit(w, h) => Hit([e] + w, h)
      case Miss(w) => Miss([e] + w)
    }
  }

  predicate Dropped(e: Entry, rep: nat) {
    e.xid <= rep && e.present
  }

  function Walk(win: seq<Entry>, xid: nat, rep: nat): (r: Walked) {
    if win == [] then Miss([])
    else if win[0].xid == xid then Hit(win, win[0])
    else if Dropped(win[0], rep) then Walk(win[1..], xid, rep)
    else Walk(win[1..], xid, rep).Prepend(win[0])
  }

  /** The first position whose id is below `xid`, or the end. */
  function FirstBelow(win: seq<Entry>, xid: nat): (k: nat)
    ensures k <= |win|
    ensures forall j :: 0 <= j < k ==> win[j].xid >= xid
    ensures k < |win| ==> win[k].xid < xid
  {
    if win == [] || win[0].xid < xid then 0 else 1 + FirstBelow(win[1..], xid)
  }

  /** Where a new entry goes: one place before that position, except at the front. */
  function Place(win: seq<Entry>, xid: nat): (p: nat)
    ensures p <= |win|
  {
    var k := FirstBelow(win, xid);
    if k == 0 then 0 else k - 1
  }

  function Insert(win: seq<Entry>, xid: nat): (r: seq<Entry>) {
    var p := Place(win, xid);
    win[..p] + [Entry(xid, false, "")] + win[p..]
  }

  function Check(win: seq<Entry>, xid: nat, rep: nat): (r: (seq<Entry>, Verdict)) {
    match Walk(win, xid, rep)
    case Hit(w, e) => (w, if e.present then Done(e.buf) else InProgress)
    case Miss(w) =>
      if w != [] && w[|w| - 1].xid > xid then (w, Forgotten) else (Insert(w, xid), New)
  }

  function AddReply(win: seq<Entry>, xid: nat, buf: Bytes): (r: seq<Entry>) {
    if win == [] then []
    else if win[0].xid == xid then [Entry(xid, true, buf)] + win[1..]
    else [win[0]] + AddReply(win[1..], xid, buf)
  }

  // ------------------------------------------------------------------- the live object

  function Before(front: seq<Entry>, r: Walked): (q: Walked) {
    match r
    case Hit(u, e) => Hit(front + u, e)
    case Miss(u) => Miss(front + u)
  }

  /** One turn of the erasing loop, at a request other than `xid`. */
  lemma WalkOn(w: seq<Entry>, i: nat, xid: nat, rep: nat)
    requires i < |w| && w[i].xid != xid
    ensures Before(w[..i], Walk(w[i..], xid, rep))
      == Before(if Dropped(w[i], rep) then w[..i] else w[..i + 1], Walk(w[i + 1..], xid, rep))
  {
    assert w[i..][0] == w[i] && w[i..][1..] == w[i + 1..];
    var q := Walk(w[i + 1..], xid, rep);
    assert w[..i] + ([w[i]] + q.win) == w[..i + 1] + q.win;
  }

  /** The erasing loop. */
  method WalkWindow(win: seq<Entry>, xid: nat, rep: nat) returns (r: Walked)
    ensures r == Walk(win, xid, rep)
  {
    var w, i := win, 0;
    while i < |w|
      invariant 0 <= i <= |w|
      invariant Walk(win, xid, rep) == Before(w[..i], Walk(w[i..], xid, rep))
      decreases |w| - i
    {
      if w[i].xid == xid {
        assert w[..i] + w[i..] == w;
        return Hit(w, w[i]);
      }
      WalkOn(w, i, xid, rep);
      if w[i].xid <= rep && w[i].present {
        ghost var u := w;
        w := w[..i] + w[i + 1..];
        assert w[i..] == u[i + 1..] && w[..i] == u[..i];
      } else {
        i := i + 1;
      }
    }
    assert w[i..] == [] && w[..i] + [] == w;
    return Miss(w);
  }

  /** The loop that looks for the place of a new entry. */
  method InsertEntry(win: seq<Entry>, xid: nat) returns (r: seq<Entry>)
    ensures r == Insert(win, xid)
  {
    var k := 0;
    while k < |win| && win[k].xid >= xid
      invariant 0 <= k <= |win|
      invariant k + FirstBelow(win[k..], xid) == FirstBelow(win, xid)
    {
      assert win[k..][1..] == win[k + 1..];
      k := k + 1;
    }
    if k != 0 { k := k - 1; }
    r := win[..k] + [Entry(xid, false, "")] + win[k..];
  }

  class Server {
    /** One window for each client nonce; an absent nonce has an empty window. */
    var windows: map<nat, seq<Entry>>

    constructor ()
      ensures windows == map[]
    {
      windows := map[];
    }

    function Window(nonce: nat): (w: seq<Entry>)
      reads this
    {
      if nonce in windows then windows[nonce] else []
    }

    method CheckDuplicateAndUpdate(nonce: nat, xid: nat, rep: nat) returns (v: Verdict)
      modifies this
      ensures (Window(nonce), v) == Check(old(Window(nonce)), xid, rep)
      ensures forall m :: m != nonce ==> Window(m) == old(Window(m))
    {
      var r := WalkWindow(Window(nonce), xid, rep);
      windows := windows[nonce := r.win];
      if r.Hit? {
        return if r.e.present then Done(r.e.buf) else InProgress;
      }
      if |r.win| > 0 && r.win[|r.win| - 1].xid > xid {
        return Forgotten;
      }
      var w := InsertEntry(r.win, xid);
      windows := windows[nonce := w];
      return New;
    }

    method RecordReply(nonce: nat, xid: nat, buf: Bytes)
      modifies this
      ensures Window(nonce) == AddReply(old(Window(nonce)), xid, buf)
      ensures forall m :: m != nonce ==> Window(m) == old(Window(m))
    {
      var w := Window(nonce);
      for i := 0 to |w|
        invariant w == old(Window(nonce))
        invariant AddReply(w, xid, buf) == w[..i] + AddReply(w[i..], xid, buf)
      {
        assert w[i..][1..] == w[i + 1..];
        if w[i].xid == xid {
          windows := windows[nonce := w[..i] + [Entry(xid, true, buf)] + w[i + 1..]];
          return;
        }
        assert w[..i] + ([w[i]] + AddReply(w[i + 1..], xid, buf)) == w[..i + 1] + AddReply(w[i + 1..], xid, buf);
      }
      assert w[|w|..] == [] && w[..|w|] + [] == w;
      windows := windows[nonce := w];
    }
  }
}
