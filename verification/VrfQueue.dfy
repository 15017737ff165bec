/** A bounds-checked reader of the oracle queue account, over arbitrary bytes. */
module VrfQueue {
  import opened Machine

  type byte = x: int | 0 <= x < 256

  datatype QueueError =
    | NotAQueueAccount
    | TruncatedHeader
    | CursorOutOfBounds
    | ItemOffsetOutOfBounds
    | ItemExceedsProviderLimits
    | TrailingBytes
    | CursorInconsistentWithItemCount
    | ItemRegionsNotContiguous
    | ItemCountMismatch

  type QueueResult<T> = Checked<T, QueueError>

  const QUEUE_DISCRIMINATOR: seq<byte> := [3, 0, 0, 0, 0, 0, 0, 0]
  const HEADER_SIZE: nat := 12
  const ITEMS_START: nat := 16
  const ITEM_SIZE: nat := 96
  const META_SIZE: nat := 33
  const MAX_CALLBACK_ACCOUNTS: nat := 25
  const MAX_CALLBACK_ARGS: nat := 512

  datatype Header = Header(itemCount: nat, cursor: nat, index: byte, paused: byte)

  /** One queue item: its fixed fields and its three variable regions. */
  datatype Item = Item(
    slot: nat, id: seq<byte>, program: seq<byte>,
    disc: seq<byte>, metas: seq<byte>, args: seq<byte>,
    priority: byte, used: byte, identityMode: byte, identityBump: byte)

  /** An item and the body offset it was found at. */
  datatype View = View(pos: nat, item: Item)

  datatype Stats = Stats(itemsVisited: nat, liveItems: nat, itemCount: nat, bytesConsumed: nat)

  // ---- Little-endian integers and alignment ----

  function LeNat(b: seq<byte>): nat {
    if b == [] then 0 else b[0] + 256 * LeNat(b[1..])
  }

  function Pow256(n: nat): nat {
    if n == 0 then 1 else 256 * Pow256(n - 1)
  }

  function LeBytes(x: nat, n: nat): (b: seq<byte>)
    ensures |b| == n
  {
    if n == 0 then [] else [x % 256] + LeBytes(x / 256, n - 1)
  }

  lemma {:induction false} LeRoundTrip(x: nat, n: nat)
    requires x < Pow256(n)
    ensures LeNat(LeBytes(x, n)) == x
    decreases n
  {
    if n > 0 {
      LeRoundTrip(x / 256, n - 1);
      assert LeBytes(x, n)[1..] == LeBytes(x / 256, n - 1);
    }
  }

  function ReadLe(b: seq<byte>, at: nat, width: nat): nat
    requires at + width <= |b|
  {
    LeNat(b[at..at + width])
  }

  /** The next multiple of eight. */
  function AlignUp8(x: nat): (r: nat)
    ensures x <= r < x + 8 && r % 8 == 0
    ensures x % 8 == 0 ==> r == x
  {
    (x + 7) / 8 * 8
  }

  // ---- The reader ----

  function ParseHeader(acc: seq<byte>): (r: QueueResult<Header>)
    ensures r.Ok? ==> 8 + HEADER_SIZE <= |acc|
    ensures r.Ok? ==> LiveEnd(r.value) <= |acc| - 8 || LiveEnd(r.value) == ITEMS_START
  {
    if |acc| < 8 || acc[..8] != QUEUE_DISCRIMINATOR then Err(NotAQueueAccount)
    else
      var body := acc[8..];
      if |body| < HEADER_SIZE then Err(TruncatedHeader)
      else
        var itemCount := ReadLe(body, 0, 4);
        var cursor := ReadLe(body, 4, 4);
        if cursor != 0 && (cursor < ITEMS_START || cursor > |body|) then Err(CursorOutOfBounds)
        else if cursor == 0 && itemCount != 0 then Err(CursorInconsistentWithItemCount)
        else Ok(Header(itemCount, cursor, body[8], body[9]))
  }

  /** Where the slot of an item found at `pos` ends. */
  function NextPos(v: View): (n: nat)
    ensures v.pos + ITEM_SIZE <= n
  {
    AlignUp8(v.pos + ITEM_SIZE + |v.item.disc| + |v.item.metas| + |v.item.args|)
  }

  function ReadItem(body: seq<byte>, p: nat): (r: QueueResult<View>)
    requires p + ITEM_SIZE <= |body|
    ensures r.Ok? ==> r.value.pos == p
  {
    var discOff := ReadLe(body, p + 72, 4);
    var metasOff := ReadLe(body, p + 76, 4);
    var argsOff := ReadLe(body, p + 80, 4);
    var discLen := ReadLe(body, p + 84, 2);
    var metasLen := ReadLe(body, p + 86, 2);
    var argsLen := ReadLe(body, p + 88, 2);
    if metasLen > MAX_CALLBACK_ACCOUNTS || argsLen > MAX_CALLBACK_ARGS then
      Err(ItemExceedsProviderLimits)
    else
      var discEnd := discOff + discLen;
      var metasEnd := metasOff + metasLen * META_SIZE;
      var argsEnd := argsOff + argsLen;
      if discEnd > |body| || metasEnd > |body| || argsEnd > |body| then Err(ItemOffsetOutOfBounds)
      else if discOff != p + ITEM_SIZE || metasOff != discEnd || argsOff != metasEnd then
        Err(ItemRegionsNotContiguous)
      else
        Ok(View(p, Item(
          ReadLe(body, p, 8), body[p + 8..p + 40], body[p + 40..p + 72],
          body[discOff..discEnd], body[metasOff..metasEnd], body[argsOff..argsEnd],
          body[p + 90], body[p + 91], body[p + 92], body[p + 93])))
  }

  /** The items of the live region from `cur` on, or why it does not parse. */
  function Walk(body: seq<byte>, cur: nat, end: nat): QueueResult<seq<View>>
    requires end <= |body| || end <= cur
    decreases end - cur
  {
    if cur + ITEM_SIZE <= end then
      var v :- ReadItem(body, cur);
      var rest :- Walk(body, NextPos(v), end);
      Ok([v] + rest)
    else if cur != end then Err(TrailingBytes)
    else Ok([])
  }

  function LiveEnd(h: Header): nat {
    if h.cursor == 0 then ITEMS_START else h.cursor
  }

  function Live(views: seq<View>): seq<View> {
    if views == [] then []
    else (if views[0].item.used == 1 then [views[0]] else []) + Live(views[1..])
  }

  /** What a visitor is left with: its own state, its first answer, and the items it was handed. */
  datatype Visited<S, R> = Visited(state: S, found: Option<R>, handed: seq<View>)

  /** A visitor with state of its own, handed live items until it answers. */
  function Visit<S, R>(visit: (S, View) -> (S, Option<R>), state: S, live: seq<View>): Visited<S, R> {
    if live == [] then Visited(state, None, [])
    else
      var (next, answer) := visit(state, live[0]);
      if answer.Some? then Visited(next, answer, [live[0]])
      else
        var rest := Visit(visit, next, live[1..]);
        rest.(handed := [live[0]] + rest.handed)
  }

  function Scan<S, R>(acc: seq<byte>, visit: (S, View) -> (S, Option<R>), state: S)
    : QueueResult<(Option<R>, Stats)>
  {
    var h :- ParseHeader(acc);
    var views :- Walk(acc[8..], ITEMS_START, LiveEnd(h));
    Ok((Visit(visit, state, Live(views)).found, Stats(|views|, |Live(views)|, h.itemCount, LiveEnd(h))))
  }

  lemma {:induction false} LiveAppend(views: seq<View>, v: View)
    ensures Live(views + [v]) == Live(views) + if v.item.used == 1 then [v] else []
    decreases |views|
  {
    if views == [] {
      assert views + [v] == [v] && [v][1..] == [];
    } else {
      LiveAppend(views[1..], v);
      assert (views + [v])[1..] == views[1..] + [v];
      var first := if views[0].item.used == 1 then [views[0]] else [];
      var last := if v.item.used == 1 then [v] else [];
      assert first + (Live(views[1..]) + last) == (first + Live(views[1..])) + last;
    }
  }

  /** One more live item, for a visitor that may have answered already. */
  function VisitOne<S, R>(visit: (S, View) -> (S, Option<R>), so: Visited<S, R>, v: View): Visited<S, R> {
    if so.found.Some? then so
    else
      var (next, answer) := visit(so.state, v);
      Visited(next, answer, so.handed + [v])
  }

  lemma {:induction false} VisitAppend<S, R>(visit: (S, View) -> (S, Option<R>), state: S, live: seq<View>, v: View)
    ensures Visit(visit, state, live + [v]) == VisitOne(visit, Visit(visit, state, live), v)
    decreases |live|
  {
    if live == [] {
      assert live + [v] == [v] && [v][1..] == live;
      assert [v] + Visit(visit, visit(state, v).0, live).handed == [v];
    } else {
      var next := visit(state, live[0]).0;
      VisitAppend(visit, next, live[1..], v);
      assert (live + [v])[1..] == live[1..] + [v];
      var handed := Visit(visit, next, live[1..]).handed;
      assert [live[0]] + (handed + [v]) == ([live[0]] + handed) + [v];
    }
  }

  /** One more item walked: it is handed over if it is used and nothing has answered yet. */
  lemma VisitStep<S, R>(visit: (S, View) -> (S, Option<R>), state: S, views: seq<View>, v: View)
    ensures |Live(views + [v])| == |Live(views)| + if v.item.used == 1 then 1 else 0
    ensures var so := Visit(visit, state, Live(views));
            Visit(visit, state, Live(views + [v])) == if v.item.used == 1 then VisitOne(visit, so, v) else so
  {
    LiveAppend(views, v);
    if v.item.used == 1 {
      VisitAppend(visit, state, Live(views), v);
    } else {
      assert Live(views) + [] == Live(views);
    }
  }

  /** What the walk still finds from `cur` on, behind what it has found. */
  ghost function Behind(views: seq<View>, rest: QueueResult<seq<View>>): QueueResult<seq<View>> {
    if rest.Ok? then Ok(views + rest.value) else rest
  }

  lemma BehindStep(body: seq<byte>, cur: nat, end: nat, views: seq<View>, v: View)
    requires cur + ITEM_SIZE <= end <= |body| && ReadItem(body, cur) == Ok(v)
    ensures Behind(views, Walk(body, cur, end)) == Behind(views + [v], Walk(body, NextPos(v), end))
  {
    hide ReadItem;
    hide NextPos;
    var rest := Walk(body, NextPos(v), end);
    assert rest.Ok? ==> views + ([v] + rest.value) == (views + [v]) + rest.value;
  }

  /** The loop of the source: one walk over the whole live region, driving a visitor that starts from
      `state`. `after` is what the visitor is left with. */
  method ScanLiveItems<S, R>(acc: seq<byte>, visit: (S, View) -> (S, Option<R>), state: S)
    returns (r: QueueResult<(Option<R>, Stats)>, after: Visited<S, R>)
    ensures r == Scan(acc, visit, state)
    ensures r.Ok? ==>
              var views := Walk(acc[8..], ITEMS_START, LiveEnd(ParseHeader(acc).value)).value;
              after == Visit(visit, state, Live(views))
  {
    hide ReadItem;
    hide ParseHeader;
    hide NextPos;
    after := Visited(state, None, []);
    var header := ParseHeader(acc);
    if header.Err? {
      return Err(header.error), after;
    }
    var body := acc[8..];
    var end := LiveEnd(header.value);
    var itemsVisited, liveItems := 0, 0;
    var cur := ITEMS_START;
    ghost var views := [];
    ghost var whole := Walk(body, ITEMS_START, end);
    assert whole.Ok? ==> [] + whole.value == whole.value;
    while cur + ITEM_SIZE <= end
      invariant end <= |body| || end <= cur
      invariant itemsVisited == |views| && liveItems == |Live(views)|
      invariant after == Visit(visit, state, Live(views))
      invariant whole == Behind(views, Walk(body, cur, end))
      decreases end - cur
    {
      var item := ReadItem(body, cur);
      if item.Err? {
        return Err(item.error), after;
      }
      itemsVisited := itemsVisited + 1;
      VisitStep(visit, state, views, item.value);
      BehindStep(body, cur, end, views, item.value);
      if item.value.item.used == 1 {
        liveItems := liveItems + 1;
        if after.found.None? {
          var (next, answer) := visit(after.state, item.value);
          after := Visited(next, answer, after.handed + [item.value]);
        }
      }
      views := views + [item.value];
      cur := NextPos(item.value);
    }
    if cur != end {
      return Err(TrailingBytes), after;
    }
    assert views + [] == views;
    r := Ok((after.found, Stats(itemsVisited, liveItems, header.value.itemCount, cur)));
  }

  /** Whether one live item targets `program` with arguments that begin with `key`. */
  predicate Targets(v: View, program: seq<byte>, key: seq<byte>) {
    v.item.program == program && key <= v.item.args
  }

  /** The batch predicate's visitor keeps no state. */
  function TargetVisitor(program: seq<byte>, key: seq<byte>): ((), View) -> ((), Option<()>) {
    (state: (), v: View) => ((), if Targets(v, program, key) then Some(()) else None)
  }

  function BatchRequestIsLive(acc: seq<byte>, program: seq<byte>, key: seq<byte>): QueueResult<(bool, Stats)>
    requires |program| == 32 && |key| == 32
  {
    var (hit, stats) :- Scan(acc, TargetVisitor(program, key), ());
    if stats.liveItems != stats.itemCount then Err(ItemCountMismatch) else Ok((hit.Some?, stats))
  }
}
