/**
  The public-stream client: the subscription and callback registries, the local mirror of
  order books and tickers, the dispatch of incoming frames, and the flags that decide
  whether a dropped connection is re-established. Sockets, tasks and sleeps are left out;
  what the socket does is a parameter (is it open, did connecting succeed), and frames are
  kept as values rather than as their JSON text.
 */
module Websocket {
  import opened Wrappers
  import opened Json
  import Text

  /** A registered callback: the client's default one or a caller's, told apart by an id. */
  datatype Callback = Default | Handler(id: nat)

  datatype Op = SubscribeOp | UnsubscribeOp

  /** A (un)subscription frame: `{"op": ..., "req_id": ..., "args": topics}`. */
  datatype Frame = Frame(op: Op, reqId: string, args: seq<string>)

  /** The ping task: never started, started, or cancelled but still referenced. */
  datatype Task = NoTask | Started | Cancelled

  /**
    The manager's state. `open` stands for "the socket exists and is not closed";
    `subscriptions` maps request ids to the frames to replay on reconnect;
    `callbacks` maps topics to callbacks; `data` mirrors books and tickers by topic.
   */
  datatype Manager = Manager(
    open: bool,
    session: bool,
    ping: Task,
    subscriptions: map<string, Frame>,
    callbacks: map<string, Callback>,
    data: map<string, Json>,
    running: bool,
    isClosing: bool)

  /** A fresh manager, as constructed. */
  function Initial(): (m: Manager)
    ensures !m.open && !m.running && !m.isClosing
    ensures m.subscriptions == map[] && m.callbacks == map[] && m.data == map[]
  {
    Manager(false, false, NoTask, map[], map[], map[], false, false)
  }

  /** The symbols a `symbol` argument stands for: a lone string is a one-element list. */
  function SymbolList(symbol: Json): (r: Result<seq<Json>, Exc>)
    ensures symbol.Str? ==> r == Success([symbol])
    ensures symbol.Arr? ==> r == Success(symbol.items)
    ensures !symbol.Str? && !symbol.Arr? ==> r == Failure(TypeError)
  {
    match symbol
    case Str(_) => Success([symbol])
    case Arr(items) => Success(items)
    case _ => Failure(TypeError)
  }

  /**
    The topics of a (un)subscription: with a symbol argument, the template formatted once
    per symbol (`format` is `template.format(symbol=s)`); without one, the template itself.
   */
  function Topics(template: string, format: Json -> string, symbol: Json): (r: Result<seq<string>, Exc>)
    ensures !Truthy(symbol) ==> r == Success([template])
    ensures symbol.Str? && Truthy(symbol) ==> r == Success([format(symbol)])
    ensures symbol.Arr? && Truthy(symbol) ==> (
      && r.Success? && |r.value| == |symbol.items|
      && forall i | 0 <= i < |symbol.items| :: r.value[i] == format(symbol.items[i]))
    ensures !symbol.Str? && !symbol.Arr? && Truthy(symbol) ==> r == Failure(TypeError)
  {
    if Truthy(symbol) then
      var symbols :- SymbolList(symbol);
      var topics := seq(|symbols|, i requires 0 <= i < |symbols| => format(symbols[i]));
      assert symbol.Str? ==> topics == [format(symbol)];
      Success(topics)
    else Success([template])
  }

  /** The callbacks with every topic (re)bound to `callback`. */
  function Register(callbacks: map<string, Callback>, topics: seq<string>, callback: Callback): (r: map<string, Callback>)
    ensures r.Keys == callbacks.Keys + (set t | t in topics)
    ensures forall t | t in topics :: r[t] == callback
    ensures forall k | k in callbacks && k !in topics :: r[k] == callbacks[k]
  {
    map k | k in callbacks.Keys + (set t | t in topics) :: if k in topics then callback else callbacks[k]
  }

  /**
    `subscribe(topic, callback, symbol)` with the fresh request id `reqId`: the frame is
    recorded and every topic bound to the callback, whether or not the socket is open;
    the frame is sent only when it is.
   */
  function Subscribe(m: Manager, template: string, format: Json -> string, symbol: Json, callback: Callback, reqId: string)
    : (r: Result<(Manager, seq<Frame>), Exc>)
    ensures r.Success? <==> Topics(template, format, symbol).Success?
    ensures r.Success? ==>
      var (m', sent) := r.value;
      var topics := Topics(template, format, symbol).value;
      && m'.subscriptions == m.subscriptions[reqId := Frame(SubscribeOp, reqId, topics)]
      && (forall t | t in topics :: t in m'.callbacks && m'.callbacks[t] == callback)
      && (forall k | k in m.callbacks && k !in topics :: k in m'.callbacks && m'.callbacks[k] == m.callbacks[k])
      && m'.callbacks.Keys == m.callbacks.Keys + (set t | t in topics)
      && m' == m.(subscriptions := m'.subscriptions, callbacks := m'.callbacks)
      && sent == (if m.open then [Frame(SubscribeOp, reqId, topics)] else [])
  {
    var topics :- Topics(template, format, symbol);
    var frame := Frame(SubscribeOp, reqId, topics);
    var m' := m.(subscriptions := m.subscriptions[reqId := frame], callbacks := Register(m.callbacks, topics, callback));
    Success((m', if m.open then [frame] else []))
  }

  /** Python `any(arg in args for arg in topics)`. */
  predicate Overlaps(args: seq<string>, topics: seq<string>) {
    exists i | 0 <= i < |topics| :: topics[i] in args
  }

  /** The stored frames that name none of the topics. */
  function Keep(subscriptions: map<string, Frame>, topics: seq<string>): (r: map<string, Frame>)
    ensures forall k :: k in r <==> k in subscriptions && !Overlaps(subscriptions[k].args, topics)
    ensures forall k | k in r :: r[k] == subscriptions[k]
  {
    map k | k in subscriptions && !Overlaps(subscriptions[k].args, topics) :: subscriptions[k]
  }

  /**
    `unsubscribe(topic, symbol)`: while the socket is open, the frame is sent, every topic's
    callback and mirrored data are dropped, every stored subscription naming one of the
    topics is forgotten, and the answer is true; while it is closed the answer is false
    and nothing changes.
   */
  function Unsubscribe(m: Manager, template: string, format: Json -> string, symbol: Json, reqId: string)
    : (r: Result<(Manager, bool, seq<Frame>), Exc>)
    ensures r.Success? <==> Topics(template, format, symbol).Success?
    ensures r.Success? && !m.open ==> r.value == (m, false, [])
    ensures r.Success? && m.open ==>
      var (m', ok, sent) := r.value;
      var topics := Topics(template, format, symbol).value;
      && ok
      && sent == [Frame(UnsubscribeOp, reqId, topics)]
      && (forall t :: t in m'.callbacks <==> t in m.callbacks && t !in topics)
      && (forall t | t in m'.callbacks :: m'.callbacks[t] == m.callbacks[t])
      && (forall t :: t in m'.data <==> t in m.data && t !in topics)
      && (forall t | t in m'.data :: m'.data[t] == m.data[t])
      && m'.subscriptions == Keep(m.subscriptions, topics)
      && m' == m.(subscriptions := m'.subscriptions, callbacks := m'.callbacks, data := m'.data)
  {
    var topics :- Topics(template, format, symbol);
    if m.open then
      var gone := set t | t in topics;
      var m' := m.(callbacks := m.callbacks - gone, data := m.data - gone, subscriptions := Keep(m.subscriptions, topics));
      Success((m', true, [Frame(UnsubscribeOp, reqId, topics)]))
    else Success((m, false, []))
  }

  /**
    Unsubscribing the topics just subscribed, on an open socket, forgets their callbacks
    and the frame just stored, and leaves the callbacks of every other topic as they were.
   */
  lemma SubscribeThenUnsubscribe(m: Manager, template: string, format: Json -> string, symbol: Json, callback: Callback, id1: string, id2: string)
    requires m.open && Topics(template, format, symbol).Success?
    requires |Topics(template, format, symbol).value| > 0
    ensures
      var m1 := Subscribe(m, template, format, symbol, callback, id1).value.0;
      var m2 := Unsubscribe(m1, template, format, symbol, id2).value.0;
      && id1 !in m2.subscriptions
      && (forall t | t in Topics(template, format, symbol).value :: t !in m2.callbacks && t !in m2.data)
      && (forall k | k !in Topics(template, format, symbol).value :: (k in m2.callbacks <==> k in m.callbacks))
      && (forall k | k in m2.callbacks :: m2.callbacks[k] == m.callbacks[k])
  {
    var topics := Topics(template, format, symbol).value;
    var m1 := Subscribe(m, template, format, symbol, callback, id1).value.0;
    assert m1.subscriptions[id1].args == topics;
    assert Overlaps(topics, topics) by {
      assert topics[0] in topics;
    }
  }

  /** What the receive loop does with a text frame. */
  datatype Route = Skip | LogOnly | Process

  /**
    The receive loop's triage: pongs are skipped; replies to auth, subscribe and
    unsubscribe are only logged; everything else is processed.
   */
  function Classify(frame: map<string, Json>): (r: Route)
    ensures r == Skip <==> ("ret_msg" in frame && PyEq(frame["ret_msg"], Str("pong"))) || ("op" in frame && PyEq(frame["op"], Str("pong")))
    ensures r == LogOnly <==> r != Skip && "op" in frame && frame["op"] in {Str("auth"), Str("subscribe"), Str("unsubscribe")}
  {
    var op := if "op" in frame then frame["op"] else Null;
    var retMsg := if "ret_msg" in frame then frame["ret_msg"] else Null;
    if PyEq(retMsg, Str("pong")) || PyEq(op, Str("pong")) then Skip
    else if PyEq(op, Str("auth")) || PyEq(op, Str("subscribe")) || PyEq(op, Str("unsubscribe")) then LogOnly
    else Process
  }

  /**
    The end of the receive loop: the manager stops running and the socket is closed;
    a reconnect is scheduled exactly when the client is not being closed on purpose.
   */
  function LoopEnd(m: Manager): (r: (Manager, bool))
    ensures !r.0.running && !r.0.open
    ensures r.1 <==> !m.isClosing
    ensures r.0 == m.(running := false, open := false)
  {
    (m.(running := false, open := false), !m.isClosing)
  }

  /**
    How `connect()` ends: the socket or the authentication raises before any task starts,
    a resubscription send raises after the ping task and the receive loop have started,
    or it returns True.
   */
  datatype ConnectOutcome = HandshakeFails | ResubscribeFails | Connects

  /**
    The outcome once the stored subscriptions are taken into account: with none stored,
    `_resubscribe()` sends nothing and cannot raise.
   */
  function Effective(m: Manager, outcome: ConnectOutcome): ConnectOutcome {
    if outcome == ResubscribeFails && m.subscriptions == map[] then Connects else outcome
  }

  /**
    `connect()`. A handshake failure drops socket and session and leaves the rest as it was.
    A resubscription failure drops socket and session too, but the ping task has been
    created and `running` set: the manager is left running on a closed socket, and the
    receive loop started before it ends on that socket (`Websocket.LateFailureReconnects`).
   */
  function Connect(m: Manager, outcome: ConnectOutcome): (r: Manager)
    ensures Effective(m, outcome) == Connects ==> r.open && r.session && r.running && r.ping == Started
    ensures outcome == HandshakeFails ==> !r.open && !r.session && r.running == m.running && r.ping == m.ping
    ensures Effective(m, outcome) == ResubscribeFails ==> !r.open && !r.session && r.running && r.ping == Started
    ensures r.open <==> Effective(m, outcome) == Connects
    ensures r.subscriptions == m.subscriptions && r.callbacks == m.callbacks && r.data == m.data && r.isClosing == m.isClosing
  {
    match Effective(m, outcome)
    case Connects => m.(open := true, session := true, ping := Started, running := true)
    case ResubscribeFails => m.(open := false, session := false, ping := Started, running := true)
    case HandshakeFails => m.(open := false, session := false)
  }

  /**
    A connect that fails while resubscribing leaves the manager running on a closed socket;
    the receive loop it started then ends, stops the manager, and schedules a reconnect unless
    the client is being closed. Until then, a reconnect does nothing, since the manager runs.
   */
  lemma LateFailureReconnects(m: Manager, ok: ConnectOutcome)
    requires m.subscriptions != map[]
    ensures
      var c := Connect(m, ResubscribeFails);
      && c.running && !c.open
      && Reconnect(c, ok) == c
      && !LoopEnd(c).0.running
      && (LoopEnd(c).1 <==> !m.isClosing)
  {
  }

  /**
    `_reconnect()`: nothing happens while the client is closing or still running;
    otherwise the old socket and session are dropped, the ping task cancelled, and
    `connect()` is called with its outcome.
   */
  function Reconnect(m: Manager, outcome: ConnectOutcome): (r: Manager)
    ensures m.isClosing || m.running ==> r == m
    ensures !m.isClosing && !m.running ==> (r.open <==> Effective(m, outcome) == Connects)
    ensures !m.isClosing && !m.running ==> (r.running <==> outcome != HandshakeFails)
    ensures !m.isClosing && !m.running && outcome == HandshakeFails ==> r.ping == (if m.ping == NoTask then NoTask else Cancelled)
    ensures !m.isClosing && !m.running && outcome != HandshakeFails ==> r.ping == Started
    ensures r.subscriptions == m.subscriptions && r.callbacks == m.callbacks && r.data == m.data && r.isClosing == m.isClosing
  {
    if m.isClosing || m.running then m
    else
      var dropped := m.(open := false, session := false, ping := if m.ping == NoTask then NoTask else Cancelled);
      Connect(dropped, outcome)
  }

  /** `close()`: closing is recorded, nothing runs, socket, session and ping task are dropped. */
  function Close(m: Manager): (r: (Manager, bool))
    ensures r.1
    ensures r.0.isClosing && !r.0.running && !r.0.open && !r.0.session && r.0.ping == NoTask
    ensures r.0.subscriptions == m.subscriptions && r.0.callbacks == m.callbacks && r.0.data == m.data
  {
    (m.(isClosing := true, running := false, open := false, session := false, ping := NoTask), true)
  }

  /**
    Closing is final: once closed, a loop end schedules no reconnect, a reconnect changes
    nothing, and (un)subscribing keeps the flag.
   */
  lemma {:induction false} ClosedStaysClosed(m: Manager, ok: ConnectOutcome)
    ensures
      var c := Close(m).0;
      && !LoopEnd(c).1
      && Reconnect(c, ok) == c
      && Reconnect(LoopEnd(c).0, ok) == LoopEnd(c).0
  {
  }

  /** Subscribing and unsubscribing never touch the running and closing flags. */
  lemma RegistriesKeepFlags(m: Manager, template: string, format: Json -> string, symbol: Json, callback: Callback, reqId: string)
    requires Topics(template, format, symbol).Success?
    ensures
      var s := Subscribe(m, template, format, symbol, callback, reqId).value.0;
      var u := Unsubscribe(m, template, format, symbol, reqId).value.0;
      && s.running == m.running && s.isClosing == m.isClosing && s.open == m.open
      && u.running == m.running && u.isClosing == m.isClosing && u.open == m.open
  {
  }

  // Order books

  /** `level[0]`: a level's price as sent, a string compared as such. */
  function PriceOf(level: Json): Result<Json, Exc> {
    At(level, 0)
  }

  /** The level has a readable price equal (Python `==`) to `price`. */
  predicate Matches(level: Json, price: Json) {
    PriceOf(level).Success? && PyEq(PriceOf(level).value, price)
  }

  /** The level has a readable price different from `price`. */
  predicate Differs(level: Json, price: Json) {
    PriceOf(level).Success? && !PyEq(PriceOf(level).value, price)
  }

  /** Every level has a readable price. */
  predicate Priced(levels: seq<Json>) {
    forall i | 0 <= i < |levels| :: PriceOf(levels[i]).Success?
  }

  /** `[level for level in levels if level[0] != price]`: the first level without a price raises. */
  function DropPrice(levels: seq<Json>, price: Json): (r: Result<seq<Json>, Exc>)
    ensures r.Success? <==> Priced(levels)
  {
    if |levels| == 0 then Success([])
    else
      assert Priced(levels) <==> PriceOf(levels[0]).Success? && Priced(levels[1..]) by {
        assert forall i | 1 <= i < |levels| :: levels[i] == levels[1..][i - 1];
      }
      match PriceOf(levels[0])
      case Failure(e) => Failure(e)
      case Success(p) =>
        var rest :- DropPrice(levels[1..], price);
        Success(if PyEq(p, price) then rest else [levels[0]] + rest)
  }

  /** The kept levels are levels of the input with another price, and every level with another price is kept. */
  lemma {:induction false} DropPriceKeeps(levels: seq<Json>, price: Json)
    requires DropPrice(levels, price).Success?
    ensures forall i | 0 <= i < |DropPrice(levels, price).value| ::
      DropPrice(levels, price).value[i] in levels && Differs(DropPrice(levels, price).value[i], price)
    ensures forall i | 0 <= i < |levels| && Differs(levels[i], price) :: levels[i] in DropPrice(levels, price).value
  {
    if |levels| > 0 {
      var rest := DropPrice(levels[1..], price);
      DropPriceKeeps(levels[1..], price);
      assert forall i | 1 <= i < |levels| :: levels[i] == levels[1..][i - 1];
    }
  }

  /** One step of the filter: the first level is kept exactly when its price differs. */
  lemma DropPriceCons(levels: seq<Json>, price: Json)
    requires |levels| > 0 && Priced(levels)
    ensures Priced(levels[1..])
    ensures DropPrice(levels, price).value ==
      (if Matches(levels[0], price) then [] else [levels[0]]) + DropPrice(levels[1..], price).value
  {
    assert forall i | 0 <= i < |levels[1..]| :: levels[1..][i] == levels[i + 1];
  }

  /** Dropping a price from two runs of levels drops it from each, so the kept levels stay in order. */
  lemma {:induction false} DropPriceAppend(a: seq<Json>, b: seq<Json>, price: Json)
    requires Priced(a) && Priced(b)
    ensures Priced(a + b)
    ensures DropPrice(a + b, price) == Success(DropPrice(a, price).value + DropPrice(b, price).value)
  {
    assert Priced(a + b) by {
      assert forall i | 0 <= i < |a + b| :: (a + b)[i] == if i < |a| then a[i] else b[i - |a|];
    }
    if |a| == 0 {
      assert a + b == b;
      assert DropPrice(a, price) == Success([]);
      assert DropPrice(b, price).Success?;
      assert [] + DropPrice(b, price).value == DropPrice(b, price).value;
    } else {
      assert (a + b)[0] == a[0] && (a + b)[1..] == a[1..] + b;
      DropPriceCons(a, price);
      DropPriceAppend(a[1..], b, price);
      DropPriceCons(a + b, price);
      var head := if Matches(a[0], price) then [] else [a[0]];
      assert DropPrice(a + b, price).value == head + (DropPrice(a[1..], price).value + DropPrice(b, price).value);
      assert DropPrice(a, price).value == head + DropPrice(a[1..], price).value;
      assert DropPrice(a, price).value + DropPrice(b, price).value
        == head + (DropPrice(a[1..], price).value + DropPrice(b, price).value);
      assert DropPrice(a + b, price).Success?;
    }
  }

  /** The levels before `n` all have a price other than `price`. */
  predicate AllDiffer(levels: seq<Json>, price: Json, n: int)
    requires 0 <= n <= |levels|
  {
    forall j | 0 <= j < n :: Differs(levels[j], price)
  }

  /** The index of the first level priced `price`, if any; a level without a price before it raises. */
  function FindPrice(levels: seq<Json>, price: Json): (r: Result<Option<nat>, Exc>)
    ensures r.Success? && r.value.Some? ==>
      r.value.value < |levels| && Matches(levels[r.value.value], price) && AllDiffer(levels, price, r.value.value)
    ensures r.Success? && r.value.None? ==> AllDiffer(levels, price, |levels|)
  {
    if |levels| == 0 then Success(None)
    else
      match PriceOf(levels[0])
      case Failure(e) => Failure(e)
      case Success(p) =>
        if PyEq(p, price) then Success(Some(0))
        else
          var rest :- FindPrice(levels[1..], price);
          assert forall j | 1 <= j < |levels| :: levels[j] == levels[1..][j - 1];
          match rest
          case None => Success(None)
          case Some(i) => Success(Some(i + 1))
  }

  /**
    A level update of non-zero size: it replaces, in place, the first level with an equal
    price, or is appended when there is none.
   */
  function Upsert(levels: seq<Json>, entry: Json, price: Json): (r: Result<seq<Json>, Exc>)
    ensures r.Success? ==> |r.value| == |levels| || r.value == levels + [entry]
    ensures r.Success? && |r.value| == |levels| ==>
      exists i | 0 <= i < |levels| :: Matches(levels[i], price) && AllDiffer(levels, price, i) && r.value == levels[i := entry]
    ensures r.Success? && |r.value| != |levels| ==> AllDiffer(levels, price, |levels|)
    ensures r.Success? ==> entry in r.value
  {
    var found :- FindPrice(levels, price);
    match found
    case Some(i) =>
      assert levels[i := entry][i] == entry;
      Success(levels[i := entry])
    case None => Success(levels + [entry])
  }

  /** `float(entry[1])`: the size of a book update. */
  function EntrySize(entry: Json): Result<real, Exc> {
    var size :- At(entry, 1);
    PyFloat(size)
  }

  /**
    One update `[price, size]` to side `side` of a book: size 0 removes every level with
    that price (when the side exists); another size upserts the level, creating the side.
    The other keys of the book are kept.
   */
  function ApplyEntry(book: map<string, Json>, side: string, entry: Json): (r: Result<map<string, Json>, Exc>)
    ensures r.Success? ==> EntrySize(entry).Success? && At(entry, 0).Success?
    ensures r.Success? ==> forall k | k in book && k != side :: k in r.value && r.value[k] == book[k]
    ensures r.Success? ==> r.value.Keys <= book.Keys + {side}
    ensures r.Success? && EntrySize(entry).value == 0.0 && side !in book ==> r.value == book
    ensures r.Success? && EntrySize(entry).value == 0.0 && side in book ==>
      side in r.value && r.value[side].Arr? && forall i | 0 <= i < |r.value[side].items| :: Differs(r.value[side].items[i], At(entry, 0).value)
    ensures r.Success? && EntrySize(entry).value != 0.0 ==> side in r.value && r.value[side].Arr? && entry in r.value[side].items
    ensures r.Success? && EntrySize(entry).value == 0.0 && side in book ==>
      && book[side].Arr? && DropPrice(book[side].items, At(entry, 0).value).Success?
      && r.value == book[side := Arr(DropPrice(book[side].items, At(entry, 0).value).value)]
    ensures r.Success? && EntrySize(entry).value != 0.0 ==>
      var levels0 := if side in book && book[side].Arr? then book[side].items else [];
      && (side in book ==> book[side].Arr?)
      && Upsert(levels0, entry, At(entry, 0).value).Success?
      && r.value == book[side := Arr(Upsert(levels0, entry, At(entry, 0).value).value)]
    ensures EntrySize(entry).Success? && At(entry, 0).Success? && side in book && !book[side].Arr? ==> r == Failure(TypeError)
    ensures EntrySize(entry).Success? && At(entry, 0).Success? && side in book && book[side].Arr? ==>
      (r.Success? <==>
        if EntrySize(entry).value == 0.0 then DropPrice(book[side].items, At(entry, 0).value).Success?
        else Upsert(book[side].items, entry, At(entry, 0).value).Success?)
    ensures EntrySize(entry).Success? && At(entry, 0).Success? && side !in book ==> r.Success?
  {
    var size :- EntrySize(entry);
    match At(entry, 0)
    case Failure(e) => Failure(e)
    case Success(price) =>
      if size == 0.0 then
        if side in book then
          match book[side]
          case Arr(levels) =>
            var kept :- DropPrice(levels, price);
            DropPriceKeeps(levels, price);
            Success(book[side := Arr(kept)])
          case _ => Failure(TypeError)
        else Success(book)
      else
        match (if side in book then book[side] else Arr([]))
        case Arr(levels) =>
          var updated :- Upsert(levels, entry, price);
          Success(book[side := Arr(updated)])
        case _ => Failure(TypeError)
  }

  /** The updates of one side in order; the first that raises stops the rest, keeping the earlier ones. */
  function ApplyEntries(book: map<string, Json>, side: string, entries: seq<Json>): (r: (map<string, Json>, Option<Exc>))
    ensures forall k | k in book && k != side :: k in r.0 && r.0[k] == book[k]
    ensures r.0.Keys <= book.Keys + {side}
    decreases |entries|
  {
    if |entries| == 0 then (book, None)
    else
      match ApplyEntry(book, side, entries[0])
      case Failure(e) => (book, Some(e))
      case Success(next) => ApplyEntries(next, side, entries[1..])
  }

  /**
    The updates are applied left to right: applying one more update at the end applies it
    to the book the earlier ones left, unless one of them already raised.
   */
  lemma {:induction false} ApplyEntriesSnoc(book: map<string, Json>, side: string, entries: seq<Json>, entry: Json)
    ensures ApplyEntries(book, side, entries + [entry]) ==
      var (before, error) := ApplyEntries(book, side, entries);
      if error.Some? then (before, error)
      else match ApplyEntry(before, side, entry)
        case Failure(e) => (before, Some(e))
        case Success(after) => (after, None)
    decreases |entries|
  {
    if |entries| > 0 {
      assert (entries + [entry])[0] == entries[0];
      assert (entries + [entry])[1..] == entries[1..] + [entry];
      match ApplyEntry(book, side, entries[0])
      case Failure(e) =>
      case Success(next) => ApplyEntriesSnoc(next, side, entries[1..], entry);
    } else {
      assert entries + [entry] == [entry];
    }
  }

  /**
    After a run of updates that raised nothing, the last one is in force: a non-zero size
    leaves that update in its side, and size 0 leaves no level with its price.
   */
  lemma ApplyEntriesLastWins(book: map<string, Json>, side: string, entries: seq<Json>)
    requires |entries| > 0 && ApplyEntries(book, side, entries).1.None?
    ensures var last, r := entries[|entries| - 1], ApplyEntries(book, side, entries).0;
      && EntrySize(last).Success? && At(last, 0).Success?
      && (EntrySize(last).value != 0.0 ==> side in r && r[side].Arr? && last in r[side].items)
      && (EntrySize(last).value == 0.0 && side in r && r[side].Arr? ==>
            forall i | 0 <= i < |r[side].items| :: Differs(r[side].items[i], At(last, 0).value))
  {
    var n := |entries| - 1;
    assert entries == entries[..n] + [entries[n]];
    ApplyEntriesSnoc(book, side, entries[..n], entries[n]);
  }

  /** `for entry in entries`: only a list of updates is iterated as such. */
  function ApplySide(book: map<string, Json>, side: string, entries: Json): (r: (map<string, Json>, Option<Exc>))
    ensures forall k | k in book && k != side :: k in r.0 && r.0[k] == book[k]
    ensures r.0.Keys <= book.Keys + {side}
    ensures !entries.Arr? ==> r == (book, Some(TypeError))
    ensures entries.Arr? && |entries.items| == 0 ==> r == (book, None)
    ensures entries.Arr? && |entries.items| > 0 && r.1.None? ==>
      var n := |entries.items| - 1;
      && ApplyEntries(book, side, entries.items[..n]).1.None?
      && ApplyEntry(ApplyEntries(book, side, entries.items[..n]).0, side, entries.items[n]) == Success(r.0)
  {
    if entries.Arr? then
      var n := |entries.items| - 1;
      if n >= 0 then
        assert entries.items == entries.items[..n] + [entries.items[n]];
        ApplyEntriesSnoc(book, side, entries.items[..n], entries.items[n]);
        ApplyEntries(book, side, entries.items)
      else ApplyEntries(book, side, entries.items)
    else (book, Some(TypeError))
  }

  /** The bid updates, then the ask updates; a bid update that raises skips the asks. */
  function ApplyBoth(start: map<string, Json>, bids: Json, asks: Json): (r: (map<string, Json>, Option<Exc>))
    ensures forall k | k in start && k != "b" && k != "a" :: k in r.0 && r.0[k] == start[k]
    ensures r.1.None? ==>
      && ApplySide(start, "b", bids).1.None?
      && r.0 == ApplySide(ApplySide(start, "b", bids).0, "a", asks).0
  {
    var (afterBids, bidError) := ApplySide(start, "b", bids);
    if bidError.Some? then (afterBids, bidError)
    else ApplySide(afterBids, "a", asks)
  }

  /** The mirror after a message, and the exception it raised, if any. */
  datatype Outcome = Outcome(data: map<string, Json>, error: Option<Exc>)

  /** `if topic not in self.data: self.data[topic] = {}`. */
  function Touch(data: map<string, Json>, topic: string): (r: map<string, Json>)
    ensures r.Keys == data.Keys + {topic}
    ensures topic in data ==> r == data
    ensures topic !in data ==> r[topic] == Obj(map[])
    ensures forall t | t in data :: r[t] == data[t]
  {
    if topic in data then data else data[topic := Obj(map[])]
  }

  /**
    A book delta: `u` and `seq` are copied onto the stored book, then the bid updates and
    the ask updates are applied in order. Whatever was done before an exception stays done.
   */
  function Delta(data: map<string, Json>, topic: string, payload: Json): (r: Outcome)
    requires topic in data
    ensures r.data.Keys == data.Keys
    ensures forall t | t in data && t != topic :: r.data[t] == data[t]
    ensures r.error.None? ==> (
      && payload.Obj? && "u" in payload.fields && "seq" in payload.fields
      && r.data[topic].Obj? && "u" in r.data[topic].fields && "seq" in r.data[topic].fields
      && r.data[topic].fields["u"] == payload.fields["u"]
      && r.data[topic].fields["seq"] == payload.fields["seq"])
    ensures r.error.None? ==>
      && payload.Obj? && "b" in payload.fields && "a" in payload.fields && data[topic].Obj?
      && var start := data[topic].fields["u" := payload.fields["u"]]["seq" := payload.fields["seq"]];
         var afterBids := ApplySide(start, "b", payload.fields["b"]);
         && afterBids.1.None?
         && r.data[topic] == Obj(ApplySide(afterBids.0, "a", payload.fields["a"]).0)
  {
    match (Lookup(payload, "b"), Lookup(payload, "a"), Lookup(payload, "u"))
    case (Failure(e), _, _) => Outcome(data, Some(e))
    case (_, Failure(e), _) => Outcome(data, Some(e))
    case (_, _, Failure(e)) => Outcome(data, Some(e))
    case (Success(bids), Success(asks), Success(u)) =>
      if !data[topic].Obj? then Outcome(data, Some(TypeError))
      else
        var withU := data[topic].fields["u" := u];
        match Lookup(payload, "seq")
        case Failure(e) => Outcome(data[topic := Obj(withU)], Some(e))
        case Success(sq) =>
          var (book, error) := ApplyBoth(withU["seq" := sq], bids, asks);
          Outcome(data[topic := Obj(book)], error)
  }

  /** `"snapshot" in message["type"]` and the like; a missing type raises KeyError. */
  function TypeHas(message: map<string, Json>, word: string): (r: Result<bool, Exc>)
    ensures "type" !in message ==> r == Failure(KeyError)
    ensures "type" in message ==> r == StrIn(word, message["type"])
  {
    if "type" in message then StrIn(word, message["type"]) else Failure(KeyError)
  }

  /**
    `_process_orderbook_update`: the topic gets an empty book if it had none; a snapshot
    replaces the book wholesale; a delta is merged level by level; other types change nothing
    more. Other topics are never touched.
   */
  function ProcessOrderbook(data: map<string, Json>, message: map<string, Json>, topic: string): (r: Outcome)
    ensures r.data.Keys == data.Keys + {topic}
    ensures forall t | t in data && t != topic :: r.data[t] == data[t]
    ensures TypeHas(message, "snapshot") == Success(true) && "data" in message ==>
      r == Outcome(data[topic := message["data"]], None)
    ensures TypeHas(message, "snapshot") == Success(false) && TypeHas(message, "delta") == Success(false) ==>
      r == Outcome(Touch(data, topic), None)
    ensures TypeHas(message, "snapshot") == Success(false) && TypeHas(message, "delta") == Success(true) ==>
      r == if "data" in message then Delta(Touch(data, topic), topic, message["data"])
           else Outcome(Touch(data, topic), Some(KeyError))
    ensures TypeHas(message, "snapshot") == Success(true) && "data" !in message ==> r == Outcome(Touch(data, topic), Some(KeyError))
    ensures "type" !in message ==> r == Outcome(Touch(data, topic), Some(KeyError))
  {
    var touched := Touch(data, topic);
    match TypeHas(message, "snapshot")
    case Failure(e) => Outcome(touched, Some(e))
    case Success(snapshot) =>
      if snapshot then
        if "data" in message then Outcome(touched[topic := message["data"]], None)
        else Outcome(touched, Some(KeyError))
      else
        match TypeHas(message, "delta")
        case Failure(e) => Outcome(touched, Some(e))
        case Success(delta) =>
          if !delta then Outcome(touched, None)
          else if "data" !in message then Outcome(touched, Some(KeyError))
          else Delta(touched, topic, message["data"])
  }

  // Tickers

  /**
    A ticker delta on the stored ticker `stored`: the payload's keys overwrite, the others
    stay; a payload that is not a dict has no `items()`, and only a dict can take new keys.
   */
  function TickerDelta(stored: Json, payload: Json): (r: Result<Json, Exc>)
    ensures !payload.Obj? ==> r == Failure(AttributeError)
    ensures payload.Obj? && |payload.fields| == 0 ==> r == Success(stored)
    ensures payload.Obj? && |payload.fields| > 0 ==> (r.Success? <==> stored.Obj?)
    ensures payload.Obj? && |payload.fields| > 0 && r.Success? ==> (
      && r.value.Obj?
      && r.value.fields.Keys == stored.fields.Keys + payload.fields.Keys
      && (forall k | k in payload.fields :: r.value.fields[k] == payload.fields[k])
      && (forall k | k in stored.fields && k !in payload.fields :: r.value.fields[k] == stored.fields[k]))
  {
    if !payload.Obj? then Failure(AttributeError)
    else if |payload.fields| == 0 then Success(stored)
    else if !stored.Obj? then Failure(TypeError)
    else Success(Obj(stored.fields + payload.fields))
  }

  /**
    `_process_ticker_update`: the topic gets an empty ticker if it had none; a snapshot
    replaces the stored ticker; a delta is merged as `TickerDelta` says. Other topics are
    never touched.
   */
  function ProcessTicker(data: map<string, Json>, message: map<string, Json>, topic: string): (r: Outcome)
    ensures r.data.Keys == data.Keys + {topic}
    ensures forall t | t in data && t != topic :: r.data[t] == data[t]
    ensures TypeHas(message, "snapshot") == Success(true) && "data" in message ==>
      r == Outcome(data[topic := message["data"]], None)
    ensures TypeHas(message, "snapshot") == Success(false) && TypeHas(message, "delta") == Success(true) && "data" in message ==>
      match TickerDelta(Touch(data, topic)[topic], message["data"])
      case Success(t) => r == Outcome(Touch(data, topic)[topic := t], None)
      case Failure(e) => r == Outcome(Touch(data, topic), Some(e))
  {
    var touched := Touch(data, topic);
    match TypeHas(message, "snapshot")
    case Failure(e) => Outcome(touched, Some(e))
    case Success(snapshot) =>
      if snapshot then
        if "data" in message then Outcome(touched[topic := message["data"]], None)
        else Outcome(touched, Some(KeyError))
      else
        match TypeHas(message, "delta")
        case Failure(e) => Outcome(touched, Some(e))
        case Success(delta) =>
          if !delta then Outcome(touched, None)
          else if "data" !in message then Outcome(touched, Some(KeyError))
          else
            match TickerDelta(touched[topic], message["data"])
            case Success(t) => Outcome(touched[topic := t], None)
            case Failure(e) => Outcome(touched, Some(e))
  }

  // Dispatch

  /** A call of `callback` with `message`. */
  datatype Delivery = Delivery(callback: Callback, message: Json)

  /** The mirror after a message, the callback call it leads to, and the exception it raised. */
  datatype Dispatched = Dispatched(data: map<string, Json>, delivery: Option<Delivery>, error: Option<Exc>)

  /** The copy handed to a book or ticker callback: typed "snapshot", carrying the whole mirrored state. */
  function AsSnapshot(message: map<string, Json>, data: map<string, Json>, topic: string): Json {
    Obj(message["type" := Str("snapshot")]["data" := if topic in data then data[topic] else Obj(map[])])
  }

  /** The merge result turned into a delivery to `callback`, unless the merge raised. */
  function Deliver(o: Outcome, message: map<string, Json>, topic: string, callback: Callback): (r: Dispatched)
    ensures r.data == o.data && r.error == o.error
    ensures o.error.None? <==> r.delivery.Some?
    ensures r.delivery.Some? ==> r.delivery.value == Delivery(callback, AsSnapshot(message, o.data, topic))
  {
    if o.error.Some? then Dispatched(o.data, None, o.error)
    else Dispatched(o.data, Some(Delivery(callback, AsSnapshot(message, o.data, topic))), None)
  }

  /**
    `_process_message`: a message without a (truthy) topic, or with a topic nobody
    registered, goes to the default callback unchanged; an order-book or ticker topic is
    merged into the mirror and its callback receives the merged state typed "snapshot";
    any other registered topic goes to its callback unchanged. A topic that cannot be a
    dict key raises TypeError.
   */
  function ProcessMessage(callbacks: map<string, Callback>, data: map<string, Json>, message: map<string, Json>): (r: Dispatched)
    ensures !("topic" in message && Truthy(message["topic"])) ==> r == Dispatched(data, Some(Delivery(Default, Obj(message))), None)
    ensures "topic" in message && message["topic"].Str? && Truthy(message["topic"]) && message["topic"].s !in callbacks ==>
      r == Dispatched(data, Some(Delivery(Default, Obj(message))), None)
    ensures "topic" in message && message["topic"].Str? && Truthy(message["topic"]) && message["topic"].s in callbacks ==>
      var topic := message["topic"].s;
      if Text.Contains(topic, "orderbook") then r == Deliver(ProcessOrderbook(data, message, topic), message, topic, callbacks[topic])
      else if Text.Contains(topic, "tickers") then r == Deliver(ProcessTicker(data, message, topic), message, topic, callbacks[topic])
      else r == Dispatched(data, Some(Delivery(callbacks[topic], Obj(message))), None)
    ensures r.delivery.None? <==> r.error.Some?
  {
    var topicValue := if "topic" in message then message["topic"] else Null;
    if !Truthy(topicValue) then Dispatched(data, Some(Delivery(Default, Obj(message))), None)
    else if topicValue.Arr? || topicValue.Obj? then Dispatched(data, None, Some(TypeError))
    else if !(topicValue.Str? && topicValue.s in callbacks) then Dispatched(data, Some(Delivery(Default, Obj(message))), None)
    else
      var topic := topicValue.s;
      if Text.Contains(topic, "orderbook") then Deliver(ProcessOrderbook(data, message, topic), message, topic, callbacks[topic])
      else if Text.Contains(topic, "tickers") then Deliver(ProcessTicker(data, message, topic), message, topic, callbacks[topic])
      else Dispatched(data, Some(Delivery(callbacks[topic], Obj(message))), None)
  }

  /** The manager after one text frame, the callback call it leads to, and whether a reconnect was scheduled. */
  datatype Received = Received(state: Manager, delivery: Option<Delivery>, reconnect: bool)

  /**
    One text frame through the receive loop: skipped and logged frames change nothing;
    others are dispatched; an exception from dispatch ends the loop as `LoopEnd` says.
   */
  function Receive(m: Manager, frame: map<string, Json>): (r: Received)
    ensures Classify(frame) != Process ==> r == Received(m, None, false)
    ensures r.state.callbacks == m.callbacks && r.state.subscriptions == m.subscriptions && r.state.isClosing == m.isClosing
    ensures r.reconnect ==> !m.isClosing && !r.state.running
    ensures r.delivery.None? && Classify(frame) == Process ==> !r.state.running && (r.reconnect <==> !m.isClosing)
  {
    if Classify(frame) != Process then Received(m, None, false)
    else
      var d := ProcessMessage(m.callbacks, m.data, frame);
      var m1 := m.(data := d.data);
      if d.error.Some? then
        var (m2, scheduled) := LoopEnd(m1);
        Received(m2, None, scheduled)
      else Received(m1, d.delivery, false)
  }
}
