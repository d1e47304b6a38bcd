// The federate-to-ambassador channel as a sequence of messages: a command message, then a body message.
module Wire {
  import opened Wrappers
  import opened Types
  import opened Bridge

  datatype OutCommand = NEXT_EVENT | RECV_WIFI_MSG | RECV_CELL_MSG | END | PREEMPTED

  datatype Item =
    | CommandItem(command: OutCommand)
    | TimeItem(time: nat)
    | WifiItem(time: nat, node: nat, msg: int, channel: nat, rssi: int)
    | CellItem(time: nat, node: nat, msg: int)

  function Render(r: Report): seq<Item> {
    match r
    case NextEvent(t) => [CommandItem(NEXT_EVENT), TimeItem(t)]
    case RecvWifi(t, node, msg) => [CommandItem(RECV_WIFI_MSG), WifiItem(t, node, msg, PROTO_CCH, 0)]
    case RecvCell(t, node, msg) => [CommandItem(RECV_CELL_MSG), CellItem(t, node, msg)]
    case End(t) => [CommandItem(END), TimeItem(t)]
    case Preempted(t) => [CommandItem(PREEMPTED), TimeItem(t)]
  }

  function RenderAll(log: seq<Report>): seq<Item> {
    if log == [] then [] else RenderAll(log[..|log| - 1]) + Render(log[|log| - 1])
  }

  // How the ambassador reads the channel: a command decides which body follows.
  function ParseOne(c: Item, body: Item): Option<Report> {
    match (c, body)
    case (CommandItem(NEXT_EVENT), TimeItem(t)) => Some(NextEvent(t))
    case (CommandItem(END), TimeItem(t)) => Some(End(t))
    case (CommandItem(PREEMPTED), TimeItem(t)) => Some(Preempted(t))
    case (CommandItem(RECV_WIFI_MSG), WifiItem(t, node, msg, channel, rssi)) =>
      if channel == PROTO_CCH && rssi == 0 then Some(RecvWifi(t, node, msg)) else None
    case (CommandItem(RECV_CELL_MSG), CellItem(t, node, msg)) => Some(RecvCell(t, node, msg))
    case _ => None
  }

  function Parse(items: seq<Item>): Option<seq<Report>> {
    if items == [] then Some([])
    else if |items| == 1 then None
    else
      var head := ParseOne(items[0], items[1]);
      var rest := Parse(items[2..]);
      if head.Some? && rest.Some? then Some([head.value] + rest.value) else None
  }

  lemma RenderMore(log: seq<Report>, r: Report)
    ensures RenderAll(log + [r]) == RenderAll(log) + Render(r)
  {
    assert (log + [r])[..|log|] == log;
  }

  lemma {:induction false} ParseAppend(items: seq<Item>, r: Report)
    ensures Parse(items).Some? ==> Parse(items + Render(r)) == Some(Parse(items).value + [r])
    decreases |items|
  {
    var all := items + Render(r);
    if items == [] {
      assert all == Render(r);
      assert all[2..] == [] && ParseOne(all[0], all[1]) == Some(r);
      assert Parse(all[2..]) == Some([]) && Parse(all) == Some([r] + []);
      assert [r] + [] == [] + [r];
    } else if |items| > 1 {
      assert all[2..] == items[2..] + Render(r);
      ParseAppend(items[2..], r);
      var head, rest := ParseOne(items[0], items[1]), Parse(items[2..]);
      if head.Some? && rest.Some? {
        assert [head.value] + (rest.value + [r]) == ([head.value] + rest.value) + [r];
      }
    }
  }

  // Everything the federate writes is read back as exactly the reports it meant,
  lemma {:induction false} ParseRendered(log: seq<Report>)
    ensures Parse(RenderAll(log)) == Some(log)
  {
    if log != [] {
      ParseRendered(log[..|log| - 1]);
      ParseAppend(RenderAll(log[..|log| - 1]), log[|log| - 1]);
      assert log == log[..|log| - 1] + [log[|log| - 1]];
    }
  }

  lemma {:induction false} RenderPrepend(r: Report, log: seq<Report>)
    ensures RenderAll([r] + log) == Render(r) + RenderAll(log)
  {
    hide Render;
    if log == [] {
      assert [r] + log == [] + [r];
      RenderMore([], r);
      assert RenderAll([]) == [];
      assert [] + Render(r) == Render(r) + [];
    } else {
      var front, last := log[..|log| - 1], log[|log| - 1];
      RenderPrepend(r, front);
      assert [r] + log == ([r] + front) + [last];
      RenderMore([r] + front, last);
      assert (Render(r) + RenderAll(front)) + Render(last) == Render(r) + (RenderAll(front) + Render(last));
    }
  }

  // and no other sequence of messages reads as those reports.
  lemma {:induction false} ParseIsUnique(items: seq<Item>)
    ensures Parse(items).Some? ==> items == RenderAll(Parse(items).value)
    decreases |items|
  {
    if Parse(items).Some? && items != [] {
      var r := ParseOne(items[0], items[1]).value;
      ParseIsUnique(items[2..]);
      RenderPrepend(r, Parse(items[2..]).value);
      assert items == Render(r) + items[2..];
    }
  }
}
