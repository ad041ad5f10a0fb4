/**
 * Writing a response to the client: the chunk list of src/helper/wr_string.c and the callbacks of
 * src/head/wr_connection.c that keep one write outstanding.
 */
module Connection {

  /** wr_str_arr_t */
  class StrArr {
    const str: string
    var next: StrArr?

    constructor (str: string)
      ensures this.str == str && next == null
    {
      this.str, next := str, null;
    }
  }

  ghost function At(cells: seq<StrArr>, i: nat): StrArr? {
    if i < |cells| then cells[i] else null
  }

  ghost function Texts(cells: seq<StrArr>): (s: seq<string>)
    ensures |s| == |cells|
  {
    seq(|cells|, i requires 0 <= i < |cells| => cells[i].str)
  }

  ghost function Size(ts: seq<string>): nat {
    if ts == [] then 0 else |ts[0]| + Size(ts[1..])
  }

  lemma {:induction false} SizeAppend(ts: seq<string>, t: string)
    ensures Size(ts + [t]) == Size(ts) + |t|
  {
    if ts == [] {
      assert ([] + [t])[1..] == [];
    } else {
      assert (ts + [t])[1..] == ts[1..] + [t];
      SizeAppend(ts[1..], t);
    }
  }

  /** wr_str_list_t */
  class StringList {
    var front: StrArr?
    var rear: StrArr?
    var len: int
    ghost var cells: seq<StrArr>

    ghost predicate Valid()
      reads this, cells
    {
      && len == Size(Texts(cells))
      && (forall i, j :: 0 <= i < j < |cells| ==> cells[i] != cells[j])
      && (forall i :: 0 <= i < |cells| ==> cells[i].next == At(cells, i + 1))
      && (if cells == [] then front == null && rear == null else front == cells[0] && rear == cells[|cells| - 1])
    }

    ghost function Contents(): seq<string>
      reads this
    {
      Texts(cells)
    }

    constructor ()
      ensures Valid() && Contents() == [] && cells == []
    {
      front, rear, len, cells := null, null, 0, [];
    }

    lemma Front()
      requires Valid()
      ensures if front == null then Contents() == [] else Contents() != [] && front.str == Contents()[0]
    {}

    /** wr_string_list_add */
    method Append(str: string)
      requires Valid()
      modifies this, cells
      ensures Valid() && Contents() == old(Contents()) + [str]
      ensures cells[..|cells| - 1] == old(cells) && fresh(cells[|cells| - 1])
    {
      var arr := new StrArr(str);
      len := len + |str|;
      SizeAppend(Texts(cells), str);
      if front == null {
        front, rear := arr, arr;
      } else {
        rear.next := arr;
        rear := arr;
      }
      cells := cells + [arr];
      assert Texts(cells) == old(Texts(cells)) + [str];
    }

    /** wr_string_list_remove */
    method Remove() returns (arr: StrArr?)
      requires Valid()
      modifies this
      ensures Valid()
      ensures old(cells) == [] ==> arr == null && cells == []
      ensures old(cells) != [] ==> arr == old(cells)[0] && cells == old(cells)[1..] && Contents() == old(Contents())[1..]
    {
      if front == null {
        return null;
      }
      arr := front;
      front := front.next;
      len := len - |arr.str|;
      if front == null {
        rear := null;
      }
      ghost var was := cells;
      cells := cells[1..];
      assert forall i :: 0 <= i < |cells| ==> cells[i] == was[i + 1];
      assert Texts(was)[1..] == Texts(cells);
      assert Size(Texts(was)) == |arr.str| + Size(Texts(cells));
    }
  }

  // ----- what happens to a connection -----

  /** Of wr_conn_t, what decides about its writes. */
  datatype Wire = Wire(
    waiting: seq<string>,     // the chunk list
    added: seq<string>,       // chunks the application's response consists of, so far
    writes: seq<string>,      // chunks handed to ebb_connection_write, so far
    outstanding: bool,        // the last one has not called back yet
    respToWrite: int,
    isClosed: bool,
    keepAlive: bool,
    closeScheduled: bool,
    gone: bool)               // wr_conn_free has been called

  datatype Event =
    | Chunk(str: string)               // wr_conn_resp_body_add
    | Written(serverKeepsAlive: bool)  // wr_conn_after_write_cb
    | Closed                           // wr_conn_close_cb
    | Requested(keepAlive: bool)       // wr_req_complete_cb
    | Answered                         // wr_req_free

  const START := Wire([], [], [], false, 0, false, false, false, false)

  /** Nothing happens to a connection that is gone, and only an outstanding write calls back. */
  predicate Enabled(w: Wire, e: Event) {
    !w.gone && (e.Written? ==> w.outstanding)
  }

  function Step(w: Wire, e: Event): Wire {
    match e
    case Chunk(str) =>
      if w.isClosed then w.(gone := w.respToWrite == 0)
      else if w.waiting != [] then w.(waiting := w.waiting + [str], added := w.added + [str])
      else w.(waiting := [str], added := w.added + [str], writes := w.writes + [str], outstanding := true)
    case Written(serverKeepsAlive) =>
      var rest := if w.waiting == [] then [] else w.waiting[1..];
      if rest != [] && !w.isClosed then w.(waiting := rest, writes := w.writes + [rest[0]], outstanding := true)
      else
        w.(waiting := rest, outstanding := false,
           closeScheduled := w.closeScheduled || (w.respToWrite <= 0 && (!serverKeepsAlive || !w.keepAlive)))
    case Closed => if w.respToWrite <= 0 then w.(gone := true) else w.(isClosed := true, keepAlive := false)
    case Requested(keepAlive) => w.(keepAlive := keepAlive, respToWrite := w.respToWrite + 1)
    case Answered => w.(respToWrite := w.respToWrite - 1, gone := w.isClosed && w.respToWrite == 1)
  }

  predicate Feasible(w: Wire, es: seq<Event>)
    decreases |es|
  {
    es == [] || (Enabled(w, es[0]) && Feasible(Step(w, es[0]), es[1..]))
  }

  function Run(w: Wire, es: seq<Event>): Wire
    decreases |es|
  {
    if es == [] then w else Run(Step(w, es[0]), es[1..])
  }

  /** The part of a run in front of the closing. */
  function Open(es: seq<Event>): seq<Event> {
    if es == [] || es[0].Closed? then [] else [es[0]] + Open(es[1..])
  }

  /** The chunks that are added. */
  function Chunks(es: seq<Event>): seq<string> {
    if es == [] then [] else (if es[0].Chunk? then [es[0].str] else []) + Chunks(es[1..])
  }

  /** How many writes call back. */
  function Callbacks(es: seq<Event>): nat {
    if es == [] then 0 else (if es[0].Written? then 1 else 0) + Callbacks(es[1..])
  }

  /** While the connection is open, the front of the list is the one write that is outstanding. */
  ghost predicate Ordered(w: Wire) {
    && w.writes <= w.added
    && (w.outstanding ==> w.waiting != [] && w.writes != [] && w.writes[|w.writes| - 1] == w.waiting[0])
    && (!w.isClosed ==> (w.outstanding <==> w.waiting != []))
    && (!w.isClosed ==> w.added == w.writes + (if w.waiting == [] then [] else w.waiting[1..]))
  }

  lemma WrittenSends(w: Wire, serverKeepsAlive: bool)
    requires Ordered(w) && Enabled(w, Written(serverKeepsAlive))
    ensures var v := Step(w, Written(serverKeepsAlive));
      && w.waiting != []
      && (!v.isClosed ==> v.writes == v.added[..|w.writes| + if w.writes < v.added then 1 else 0])
      && (!v.isClosed ==> (v.outstanding <==> w.writes < v.added))
      && (!v.isClosed && v.closeScheduled && !w.closeScheduled ==> v.writes == v.added && !v.outstanding)
      && v.closeScheduled == (w.closeScheduled ||
                              (!v.outstanding && v.respToWrite <= 0 && (!serverKeepsAlive || !v.keepAlive)))
  {
    if !w.isClosed { WrittenOrdered(w, Written(serverKeepsAlive)); }
  }

  lemma ChunkAdds(w: Wire, str: string)
    requires Ordered(w) && Enabled(w, Chunk(str))
    ensures var v := Step(w, Chunk(str));
      && v.added == w.added + (if v.isClosed then [] else [str])
      && v.writes == w.writes + if !v.isClosed && !w.outstanding then [str] else []
    ensures !w.isClosed && w.waiting == [] ==> !w.outstanding
  {}

  lemma StepOrdered(w: Wire, e: Event)
    requires Ordered(w) && Enabled(w, e)
    ensures Ordered(Step(w, e))
  {
    match e {
      case Chunk(_) => ChunkOrdered(w, e);
      case Written(_) => WrittenOrdered(w, e);
      case _ =>
    }
  }

  lemma ChunkOrdered(w: Wire, e: Event)
    requires Ordered(w) && Enabled(w, e) && e.Chunk?
    ensures Ordered(Step(w, e))
  {
    if !w.isClosed && w.waiting != [] {
      assert (w.waiting + [e.str])[1..] == w.waiting[1..] + [e.str];
      assert w.added + [e.str] == w.writes + (w.waiting[1..] + [e.str]);
    }
  }

  lemma WrittenOrdered(w: Wire, e: Event)
    requires Ordered(w) && Enabled(w, e) && e.Written?
    ensures Ordered(Step(w, e))
  {
    if !w.isClosed && |w.waiting| > 1 {
      var rest := w.waiting[1..];
      assert w.added == w.writes + ([rest[0]] + rest[1..]);
      assert w.added == (w.writes + [rest[0]]) + rest[1..];
    }
  }

  /** On a closed connection nothing is added and nothing more is written. */
  lemma {:induction false} ClosedForGood(w: Wire, es: seq<Event>)
    requires (w.isClosed || w.gone) && Feasible(w, es)
    ensures var v := Run(w, es); v.added == w.added && v.writes == w.writes
    decreases |es|
  {
    if es != [] { ClosedForGood(Step(w, es[0]), es[1..]); }
  }

  /** The chunks written after `n` of the writes have called back. */
  function Issued(chunks: seq<string>, n: nat): seq<string> {
    if n < |chunks| then chunks[..n + 1] else chunks
  }

  /** The number of writes that have called back. */
  function Done(w: Wire): int {
    |w.writes| - if w.outstanding then 1 else 0
  }

  lemma OpenNow(w: Wire)
    requires Ordered(w) && !w.isClosed
    ensures 0 <= Done(w) <= |w.added| && w.writes == Issued(w.added, Done(w))
    ensures w.outstanding == (Done(w) < |w.added|)
  {}

  lemma OpenStep(w: Wire, e: Event)
    requires Ordered(w) && !w.isClosed && Enabled(w, e) && !e.Closed?
    ensures var v := Step(w, e);
      && Ordered(v) && !v.isClosed
      && v.added == w.added + (if e.Chunk? then [e.str] else [])
      && Done(v) == Done(w) + (if e.Written? then 1 else 0)
  {
    StepOrdered(w, e);
  }

  lemma {:induction false} OpenRun(w: Wire, es: seq<Event>)
    requires Ordered(w) && !w.isClosed && Feasible(w, es)
    ensures var v := Run(w, es); var n := Done(w) + Callbacks(Open(es));
      && v.added == w.added + Chunks(Open(es))
      && 0 <= n <= |v.added| && v.writes == Issued(v.added, n)
      && (Open(es) == es ==> v.outstanding == (n < |v.added|))
    decreases |es|
  {
    hide Step, Ordered, Done, Issued, Open, Chunks, Callbacks;
    OpenParts(es);
    if es == [] || es[0].Closed? {
      OpenNow(w);
      assert w.added + [] == w.added;
      if es != [] { CloseRun(w, es); }
    } else {
      OpenStep(w, es[0]);
      OpenRun(Step(w, es[0]), es[1..]);
    }
  }

  lemma OpenParts(es: seq<Event>)
    ensures es == [] || es[0].Closed? ==>
      Chunks(Open(es)) == [] && Callbacks(Open(es)) == 0 && (Open(es) == es ==> es == [])
    ensures es != [] && !es[0].Closed? ==>
      && Chunks(Open(es)) == (if es[0].Chunk? then [es[0].str] else []) + Chunks(Open(es[1..]))
      && Callbacks(Open(es)) == (if es[0].Written? then 1 else 0) + Callbacks(Open(es[1..]))
      && (Open(es) == es ==> Open(es[1..]) == es[1..])
  {}

  lemma CloseRun(w: Wire, es: seq<Event>)
    requires es != [] && es[0].Closed? && Feasible(w, es)
    ensures Run(w, es).added == w.added && Run(w, es).writes == w.writes
  {
    ClosedForGood(Step(w, es[0]), es[1..]);
  }

  /**
   * Whatever happens to a connection: the chunks added before it is closed are written in order, none
   * skipped or repeated, each as soon as the one in front has called back and not earlier; afterwards
   * no chunk is taken and none is written.
   */
  lemma WritesInOrder(es: seq<Event>)
    requires Feasible(START, es)
    ensures var w := Run(START, es); var chunks, n := Chunks(Open(es)), Callbacks(Open(es));
      && w.added == chunks && n <= |chunks| && w.writes == Issued(chunks, n)
      && (Open(es) == es ==> w.outstanding == (n < |chunks|))
  {
    OpenRun(START, es);
    assert [] + Chunks(Open(es)) == Chunks(Open(es));
  }

  /** How many requests are answered. */
  function Answers(es: seq<Event>): nat {
    if es == [] then 0 else (if es[0].Answered? then 1 else 0) + Answers(es[1..])
  }

  /** A connection that is closed with responses due is destroyed with the last of them, and not before. */
  lemma {:induction false} GoneWhenAnswered(w: Wire, es: seq<Event>)
    requires !w.gone && w.isClosed && w.respToWrite > 0 && Feasible(w, es)
    requires forall e :: e in es ==> !e.Requested?
    ensures var v := Run(w, es);
      v.respToWrite == w.respToWrite - Answers(es) >= 0 && (v.gone <==> Answers(es) == w.respToWrite)
    decreases |es|
  {
    if es != [] {
      var v := Step(w, es[0]);
      if v.gone {
        assert es[1..] == [];
      } else {
        GoneWhenAnswered(v, es[1..]);
      }
    }
  }

  /** wr_conn_t, with the calls of ebb_connection_write as a log. */
  class Conn {
    const resp: StringList
    var respToWrite: int
    var isClosed: bool
    var keepAlive: bool
    var closeScheduled: bool
    ghost var added: seq<string>
    ghost var writes: seq<string>
    ghost var outstanding: bool
    ghost var gone: bool

    ghost function Repr(): set<object>
      reads this, resp
    {
      {this, resp} + set c <- resp.cells
    }

    ghost function Now(): Wire
      reads this, resp
    {
      Wire(resp.Contents(), added, writes, outstanding, respToWrite, isClosed, keepAlive, closeScheduled, gone)
    }

    ghost predicate Valid()
      reads this, resp, resp.cells
    {
      resp.Valid() && Ordered(Now())
    }

    constructor ()
      ensures Valid() && Now() == START && fresh(Repr() - {this})
    {
      resp := new StringList();
      respToWrite, isClosed, keepAlive, closeScheduled := 0, false, false, false;
      added, writes, outstanding, gone := [], [], false, false;
    }

    /** ebb_connection_write: never while a write is outstanding. */
    method EbbWrite(str: string)
      requires !outstanding
      modifies this`writes, this`outstanding
      ensures writes == old(writes) + [str] && outstanding
    {
      writes, outstanding := writes + [str], true;
    }

    /** The chunk is added to the list. */
    method Push(str: string) returns (empty: bool)
      requires resp.Valid()
      modifies resp, resp.cells
      ensures resp.Valid() && resp.Contents() == old(resp.Contents()) + [str]
      ensures empty == (old(resp.Contents()) == []) && (empty ==> resp.front != null && resp.front.str == str)
      ensures fresh(Repr() - old(Repr()))
    {
      hide StringList.Valid, Texts;
      resp.Front();
      empty := resp.front == null;
      resp.Append(str);
      resp.Front();
    }

    /** wr_conn_resp_body_add; `gone` says that the connection has been destroyed. */
    method RespBodyAdd(str: string)
      requires Valid() && !gone
      modifies Repr()
      ensures Valid() && Now() == Step(old(Now()), Chunk(str))
      ensures fresh(Repr() - old(Repr()))
      ensures added == old(added) + if isClosed then [] else [str]
      ensures writes == old(writes) + if !isClosed && !old(outstanding) then [str] else []
      ensures gone == (isClosed && respToWrite == 0)
    {
      hide Ordered, StringList.Valid, Texts;
      ghost var was := Now();
      StepOrdered(was, Chunk(str));
      ChunkAdds(was, str);
      if !isClosed {
        var empty := Push(str);
        added := added + [str];
        if empty {
          EbbWrite(resp.front.str);
        }
        assert Now() == Step(was, Chunk(str));
      } else if respToWrite == 0 {
        gone := true;
      }
    }

    /** wr_conn_after_write_cb: the outstanding write is done. */
    method AfterWrite(serverKeepsAlive: bool)
      requires Valid() && !gone && outstanding
      modifies this, resp
      ensures Valid() && Now() == Step(old(Now()), Written(serverKeepsAlive))
      ensures Repr() <= old(Repr()) && resp.cells == old(resp.cells)[1..]
      ensures !isClosed ==> writes == added[..|old(writes)| + if old(writes) < added then 1 else 0]
      ensures !isClosed ==> (outstanding <==> old(writes) < added)
      ensures !isClosed && closeScheduled && !old(closeScheduled) ==> writes == added && !outstanding
      ensures closeScheduled == (old(closeScheduled) ||
                                 (!outstanding && respToWrite <= 0 && (!serverKeepsAlive || !keepAlive)))
    {
      hide Ordered, StringList.Valid, Texts;
      StepOrdered(Now(), Written(serverKeepsAlive));
      WrittenSends(Now(), serverKeepsAlive);
      var arr := resp.Remove();
      resp.Front();
      outstanding := false;
      if resp.front != null && !isClosed {
        EbbWrite(resp.front.str);
      } else if respToWrite <= 0 {
        if !serverKeepsAlive || !keepAlive {
          closeScheduled := true;
        }
      }
    }

    /** wr_conn_close_cb */
    method OnClose()
      requires Valid() && !gone
      modifies this`isClosed, this`keepAlive, this`gone
      ensures Valid() && Now() == Step(old(Now()), Event.Closed)
      ensures gone == (respToWrite <= 0)
      ensures if gone then isClosed == old(isClosed) && keepAlive == old(keepAlive) else isClosed && !keepAlive
    {
      if respToWrite <= 0 {
        gone := true;
      } else {
        isClosed, keepAlive := true, false;
      }
    }

    /** The part of wr_req_complete_cb that concerns the connection. */
    method OnRequest(keepsAlive: bool)
      requires Valid() && !gone
      modifies this`respToWrite, this`keepAlive
      ensures Valid() && Now() == Step(old(Now()), Requested(keepsAlive))
      ensures keepAlive == keepsAlive && respToWrite == old(respToWrite) + 1
    {
      keepAlive := keepsAlive;
      respToWrite := respToWrite + 1;
    }

    /** The part of wr_req_free that concerns the connection. */
    method OnAnswered()
      requires Valid() && !gone
      modifies this`respToWrite, this`gone
      ensures Valid() && Now() == Step(old(Now()), Answered)
      ensures respToWrite == old(respToWrite) - 1 && gone == (isClosed && respToWrite == 0)
    {
      respToWrite := respToWrite - 1;
      if isClosed && respToWrite == 0 {
        gone := true;
      }
    }

    method Handle(e: Event)
      requires Valid() && Enabled(Now(), e)
      modifies Repr()
      ensures Valid() && Now() == Step(old(Now()), e) && fresh(Repr() - old(Repr()))
    {
      hide Ordered, Step;
      match e {
        case Chunk(str) => RespBodyAdd(str);
        case Written(serverKeepsAlive) => AfterWrite(serverKeepsAlive);
        case Closed => OnClose();
        case Requested(keepsAlive) => OnRequest(keepsAlive);
        case Answered => OnAnswered();
      }
    }
  }

  /** A new connection goes through whatever may happen to it. */
  method Converse(es: seq<Event>) returns (conn: Conn)
    requires Feasible(START, es)
    ensures fresh(conn.Repr()) && conn.Valid() && conn.Now() == Run(START, es)
    ensures conn.added == Chunks(Open(es)) && conn.writes == Issued(Chunks(Open(es)), Callbacks(Open(es)))
  {
    hide Step, Enabled, Ordered, Chunks, Callbacks, Open;
    WritesInOrder(es);
    conn := new Conn();
    for i := 0 to |es|
      invariant fresh(conn.Repr()) && conn.Valid()
      invariant Feasible(conn.Now(), es[i..]) && Run(conn.Now(), es[i..]) == Run(START, es)
    {
      assert es[i..][1..] == es[i + 1..];
      conn.Handle(es[i]);
    }
  }
}
