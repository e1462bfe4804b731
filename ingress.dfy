/**
 * The consumer's ingress: a WebSocket server that serves one client at a
 * time, forwards every trimmed text frame to the in-process broadcast bus
 * and can push text back to the client currently connected. Sockets are
 * abstracted to events: the outcome of each accept, and for each accepted
 * connection the finite list of items its read stream yields before it ends.
 */
module Ingress {
  import opened Base

  /** A stand-in for a connection's write half: which connection it belongs to. */
  type ConnId = nat

  /** One item a connection's read stream yields. */
  datatype Item = Text(text: string) | NonText | ReadError

  /** An accepted connection and everything its read stream yields before it ends. */
  datatype Connection = Connection(id: ConnId, items: seq<Item>)

  /** The outcome of one accept on the listener. */
  datatype AcceptOutcome = Accepted(conn: Connection) | AcceptFailed

  /** One text message written to a client. */
  datatype Push = Push(to: ConnId, text: string)

  /** Rust's `char::is_whitespace`: the Unicode White_Space property. */
  predicate IsWhitespace(c: char)
  {
    ('\t' <= c <= '\r') || c == ' ' || c == '\U{0085}' || c == '\U{00A0}' || c == '\U{1680}' ||
    ('\U{2000}' <= c <= '\U{200A}') || c == '\U{2028}' || c == '\U{2029}' || c == '\U{202F}' ||
    c == '\U{205F}' || c == '\U{3000}'
  }

  /** Whether a string is made of whitespace only. */
  predicate AllWhitespace(w: string)
  {
    forall k :: 0 <= k < |w| ==> IsWhitespace(w[k])
  }

  /** Whether a string has no whitespace at either end. */
  predicate Trimmed(s: string)
  {
    s == [] || (!IsWhitespace(s[0]) && !IsWhitespace(s[|s| - 1]))
  }

  /**
   * `str::trim`: whitespace is removed from the front, then from the back,
   * until the string is empty or starts and ends with a non-whitespace
   * character.
   */
  function Trim(s: string): string
  {
    if s != [] && IsWhitespace(s[0]) then Trim(s[1..])
    else if s != [] && IsWhitespace(s[|s| - 1]) then Trim(s[..|s| - 1])
    else s
  }

  /** What `Trim` leaves neither starts nor ends with whitespace. */
  lemma {:induction false} TrimIsTrimmed(s: string)
    ensures Trimmed(Trim(s))
  {
    if s != [] && IsWhitespace(s[0]) {
      TrimIsTrimmed(s[1..]);
    } else if s != [] && IsWhitespace(s[|s| - 1]) {
      TrimIsTrimmed(s[..|s| - 1]);
    }
  }

  /** Where the part `Trim` keeps starts: the number of whitespace characters removed in front. */
  function TrimStartIndex(s: string): (i: nat)
    ensures i + |Trim(s)| <= |s|
  {
    if s != [] && IsWhitespace(s[0]) then 1 + TrimStartIndex(s[1..])
    else if s != [] && IsWhitespace(s[|s| - 1]) then TrimStartIndex(s[..|s| - 1])
    else 0
  }

  /** A slice of a string without its first character is a slice of the string, one place on. */
  lemma SliceOfTail(s: string, a: nat, b: nat)
    requires 1 <= |s| && a <= b <= |s| - 1
    ensures s[1..][a..b] == s[a + 1..b + 1]
  {
  }

  /** A slice of a prefix is the same slice of the whole string. */
  lemma SliceOfPrefix(s: string, m: nat, a: nat, b: nat)
    requires a <= b <= m <= |s|
    ensures s[..m][a..b] == s[a..b]
  {
  }

  /** `Trim` keeps a contiguous middle part of the string. */
  lemma {:induction false} TrimIsSlice(s: string)
    ensures Trim(s) == s[TrimStartIndex(s)..TrimStartIndex(s) + |Trim(s)|]
  {
    if s != [] && IsWhitespace(s[0]) {
      var t := s[1..];
      TrimIsSlice(t);
      SliceOfTail(s, TrimStartIndex(t), TrimStartIndex(t) + |Trim(t)|);
    } else if s != [] && IsWhitespace(s[|s| - 1]) {
      var t := s[..|s| - 1];
      TrimIsSlice(t);
      SliceOfPrefix(s, |s| - 1, TrimStartIndex(t), TrimStartIndex(t) + |Trim(t)|);
    }
  }

  /** Every character in front of or behind the part `Trim` keeps is whitespace. */
  lemma {:induction false} TrimRemovesOnlyWhitespace(s: string, k: int)
    requires 0 <= k < |s|
    requires k < TrimStartIndex(s) || TrimStartIndex(s) + |Trim(s)| <= k
    ensures IsWhitespace(s[k])
  {
    if s != [] && IsWhitespace(s[0]) {
      if k > 0 {
        assert s[k] == s[1..][k - 1];
        TrimRemovesOnlyWhitespace(s[1..], k - 1);
      }
    } else if s != [] && IsWhitespace(s[|s| - 1]) {
      if k < |s| - 1 {
        assert s[k] == s[..|s| - 1][k];
        TrimRemovesOnlyWhitespace(s[..|s| - 1], k);
      }
    }
  }

  /** A string without whitespace at its ends is its own trim. */
  lemma TrimOfTrimmed(s: string)
    requires Trimmed(s)
    ensures Trim(s) == s
  {
  }

  /** Leading whitespace makes no difference to the trim. */
  lemma {:induction false} TrimLeading(lead: string, s: string)
    requires AllWhitespace(lead)
    ensures Trim(lead + s) == Trim(s)
  {
    if lead != [] {
      assert (lead + s)[0] == lead[0];
      assert (lead + s)[1..] == lead[1..] + s;
      TrimLeading(lead[1..], s);
    } else {
      assert lead + s == s;
    }
  }

  /** Trailing whitespace after a string that starts with a non-whitespace character makes no difference to the trim. */
  lemma {:induction false} TrimTrailing(s: string, trail: string)
    requires AllWhitespace(trail)
    requires s != [] && !IsWhitespace(s[0])
    ensures Trim(s + trail) == Trim(s)
  {
    if trail != [] {
      var init := trail[..|trail| - 1];
      var all := s + trail;
      assert all[0] == s[0];
      assert all[|all| - 1] == trail[|trail| - 1];
      assert all[..|all| - 1] == s + init;
      TrimTrailing(s, init);
    } else {
      assert s + trail == s;
    }
  }

  /** Padding a trimmed string with whitespace on either side and trimming it gives the string back. */
  lemma TrimPadded(lead: string, s: string, trail: string)
    requires AllWhitespace(lead)
    requires AllWhitespace(trail)
    requires Trimmed(s)
    ensures Trim(lead + s + trail) == s
  {
    assert lead + s + trail == lead + (s + trail);
    TrimLeading(lead, s + trail);
    if s == [] {
      assert s + trail == trail + [];
      TrimLeading(trail, []);
    } else {
      TrimTrailing(s, trail);
      TrimOfTrimmed(s);
    }
  }

  /** Trimming twice is trimming once. */
  lemma TrimIdempotent(s: string)
    ensures Trim(Trim(s)) == Trim(s)
  {
    TrimIsTrimmed(s);
    TrimOfTrimmed(Trim(s));
  }

  /** What the read loop hands to the bus for one item: a text frame's trim, or nothing. */
  function ForwardItem(item: Item): seq<string>
  {
    match item
    case Text(t) => [Trim(t)]
    case _ => []
  }

  /**
   * What the read loop hands to the bus for one connection's items: each
   * text frame, trimmed, in arrival order; other frames and read errors
   * contribute nothing.
   */
  function Forwarded(items: seq<Item>): seq<string>
  {
    if items == [] then [] else Forwarded(items[..|items| - 1]) + ForwardItem(items[|items| - 1])
  }

  /** The number of text frames among the items. */
  function TextCount(items: seq<Item>): nat
  {
    if items == [] then 0
    else TextCount(items[..|items| - 1]) + if items[|items| - 1].Text? then 1 else 0
  }

  /** Forwarding splits over concatenation: each part's frames are forwarded in order. */
  lemma {:induction false} ForwardedAppend(front: seq<Item>, back: seq<Item>)
    ensures Forwarded(front + back) == Forwarded(front) + Forwarded(back)
  {
    if back == [] {
      assert front + back == front;
    } else {
      var init, last := back[..|back| - 1], back[|back| - 1];
      var all := front + back;
      assert all[..|all| - 1] == front + init;
      assert all[|all| - 1] == last;
      assert Forwarded(all) == Forwarded(front + init) + ForwardItem(last);
      assert Forwarded(back) == Forwarded(init) + ForwardItem(last);
      ForwardedAppend(front, init);
    }
  }

  /**
   * Each text frame is forwarded exactly once: one forwarded message per
   * text frame, and each forwarded message has no whitespace at its ends.
   */
  lemma {:induction false} ForwardedOncePerText(items: seq<Item>)
    ensures |Forwarded(items)| == TextCount(items)
    ensures forall k :: 0 <= k < |Forwarded(items)| ==> Trimmed(Forwarded(items)[k])
  {
    if items != [] {
      var init, last := items[..|items| - 1], items[|items| - 1];
      ForwardedOncePerText(init);
      if last.Text? {
        TrimIsTrimmed(last.text);
      }
    }
  }

  /** A non-text frame or a read error anywhere among the items forwards nothing. */
  lemma ForwardedSkipsOthers(front: seq<Item>, other: Item, back: seq<Item>)
    requires !other.Text?
    ensures Forwarded(front + [other] + back) == Forwarded(front + back)
  {
    ForwardedAppend(front + [other], back);
    ForwardedAppend(front, [other]);
    ForwardedAppend(front, back);
    assert [other][..0] == [];
  }

  /** A list of text frames carrying the given texts. */
  function TextFrames(texts: seq<string>): (items: seq<Item>)
    ensures |items| == |texts|
    ensures forall k :: 0 <= k < |texts| ==> items[k] == Text(texts[k])
  {
    if texts == [] then [] else TextFrames(texts[..|texts| - 1]) + [Text(texts[|texts| - 1])]
  }

  /** Each text trimmed, in order. */
  function TrimEach(texts: seq<string>): (r: seq<string>)
    ensures |r| == |texts|
    ensures forall k :: 0 <= k < |texts| ==> r[k] == Trim(texts[k])
  {
    if texts == [] then [] else TrimEach(texts[..|texts| - 1]) + [Trim(texts[|texts| - 1])]
  }

  /** A connection made only of text frames forwards each frame, trimmed, in order. */
  lemma {:induction false} ForwardedAllText(texts: seq<string>)
    ensures Forwarded(TextFrames(texts)) == TrimEach(texts)
  {
    if texts != [] {
      var init := texts[..|texts| - 1];
      ForwardedAllText(init);
      var items := TextFrames(texts);
      assert items[..|items| - 1] == TextFrames(init);
    }
  }

  /** How many outcomes the outer loop gets through: every accept before the first failed one. */
  function AcceptedPrefix(outcomes: seq<AcceptOutcome>): (n: nat)
    ensures n <= |outcomes|
    ensures n < |outcomes| ==> outcomes[n].AcceptFailed?
  {
    if outcomes == [] || outcomes[0].AcceptFailed? then 0
    else 1 + AcceptedPrefix(outcomes[1..])
  }

  /** Every outcome before the first failed accept is an accept. */
  lemma {:induction false} AcceptedBeforePrefix(outcomes: seq<AcceptOutcome>, k: nat)
    requires k < AcceptedPrefix(outcomes)
    ensures outcomes[k].Accepted?
  {
    if k > 0 {
      AcceptedBeforePrefix(outcomes[1..], k - 1);
    }
  }

  /** What one accept outcome hands to the bus once its connection is served. */
  function ForwardConn(outcome: AcceptOutcome): seq<string>
  {
    if outcome.Accepted? then Forwarded(outcome.conn.items) else []
  }

  /** What a run of served connections hands to the bus, connection after connection. */
  function ForwardedAll(outcomes: seq<AcceptOutcome>): seq<string>
  {
    if outcomes == [] then []
    else ForwardedAll(outcomes[..|outcomes| - 1]) + ForwardConn(outcomes[|outcomes| - 1])
  }

  /** Serving one more accepted connection extends the run's forwarded messages by its own. */
  lemma ForwardedAllStep(outcomes: seq<AcceptOutcome>, i: nat)
    requires i < |outcomes| && outcomes[i].Accepted?
    ensures ForwardedAll(outcomes[..i + 1]) == ForwardedAll(outcomes[..i]) + Forwarded(outcomes[i].conn.items)
  {
    var run := outcomes[..i + 1];
    assert run[..|run| - 1] == outcomes[..i];
    assert run[|run| - 1] == outcomes[i];
  }

  /** The server: its one client slot, and the logs of what it sent. */
  class WebsocketServer {
    /** The write half of the client being served, if any. */
    var websocketSender: Option<ConnId>
    /** Every message handed to the bus, oldest first. */
    var forwarded: seq<string>
    /** Every text message written to a client, oldest first. */
    var pushes: seq<Push>

    /** A bound server with no client yet. */
    constructor ()
      ensures websocketSender == None
      ensures forwarded == [] && pushes == []
    {
      websocketSender := None;
      forwarded := [];
      pushes := [];
    }

    /** A connection is accepted: its write half takes the slot, replacing whatever was there. */
    method Accept(id: ConnId)
      modifies this`websocketSender
      ensures websocketSender == Some(id)
    {
      websocketSender := Some(id);
    }

    /** One item from the current connection's read stream. */
    method Receive(item: Item)
      modifies this`forwarded
      ensures forwarded == old(forwarded) + if item.Text? then [Trim(item.text)] else []
    {
      match item
      case Text(t) =>
        SendToAgent(Trim(t));
      case _ =>
    }

    /** The current connection's read stream has ended: the slot is cleared. */
    method Disconnect()
      modifies this`websocketSender
      ensures websocketSender == None
    {
      websocketSender := None;
    }

    /** Hand one message to the bus. */
    method SendToAgent(message: string)
      modifies this`forwarded
      ensures forwarded == old(forwarded) + [message]
    {
      forwarded := forwarded + [message];
    }

    /**
     * Write one text message to the client in the slot; with no client,
     * nothing is written. A failed write is ignored, so the model records
     * every write attempted.
     */
    method SendToClient(message: string)
      modifies this`pushes
      ensures pushes == old(pushes) + if websocketSender.Some? then [Push(websocketSender.value, message)] else []
    {
      if websocketSender.Some? {
        pushes := pushes + [Push(websocketSender.value, message)];
      }
    }

    /**
     * Serve one accepted connection: take the slot, forward each of its
     * items until the read stream ends, then clear the slot.
     */
    method Serve(conn: Connection)
      modifies this`websocketSender, this`forwarded
      ensures forwarded == old(forwarded) + Forwarded(conn.items)
      ensures websocketSender == None
    {
      Accept(conn.id);
      for j := 0 to |conn.items|
        invariant forwarded == old(forwarded) + Forwarded(conn.items[..j])
        invariant websocketSender == Some(conn.id)
      {
        assert conn.items[..j + 1][..j] == conn.items[..j];
        Receive(conn.items[j]);
      }
      assert conn.items[..|conn.items|] == conn.items;
      Disconnect();
    }

    /**
     * The accept loop. Each accepted connection is served to the end of its
     * read stream before the next accept; the first failed accept ends the
     * loop. `stopped` says whether that happened: when every outcome is an
     * accept, the real server would go on waiting for the next one.
     */
    method Init(outcomes: seq<AcceptOutcome>) returns (stopped: bool)
      modifies this`websocketSender, this`forwarded
      ensures stopped <==> AcceptedPrefix(outcomes) < |outcomes|
      ensures forwarded == old(forwarded) + ForwardedAll(outcomes[..AcceptedPrefix(outcomes)])
      ensures websocketSender == if AcceptedPrefix(outcomes) == 0 then old(websocketSender) else None
    {
      var n := AcceptedPrefix(outcomes);
      var i := 0;
      while i < |outcomes| && outcomes[i].Accepted?
        invariant 0 <= i <= n
        invariant forwarded == old(forwarded) + ForwardedAll(outcomes[..i])
        invariant websocketSender == if i == 0 then old(websocketSender) else None
        decreases |outcomes| - i
      {
        Serve(outcomes[i].conn);
        ForwardedAllStep(outcomes, i);
        i := i + 1;
      }
      if i < |outcomes| && i < n {
        AcceptedBeforePrefix(outcomes, i);
        assert false;
      }
      stopped := i < |outcomes|;
    }
  }

  /**
   * One client at a time: client 1 connects and leaves, a push while no
   * client is connected is dropped, client 2 connects, and the next push
   * reaches client 2 only.
   */
  method HandOver() returns (delivered: seq<Push>)
    ensures delivered == [Push(2, "ping")]
  {
    var server := new WebsocketServer();
    server.Accept(1);
    server.Disconnect();
    server.SendToClient("lost");
    server.Accept(2);
    server.SendToClient("ping");
    delivered := server.pushes;
  }

  /**
   * A sample run: one client sends a padded text frame, a binary frame and
   * a read error and leaves; then an accept fails, so a later client is
   * never served.
   */
  const SampleRun := [
    Accepted(Connection(7, [Text(" {}\n"), NonText, ReadError])),
    AcceptFailed,
    Accepted(Connection(8, [Text("x")]))]

  /** The first client's padded frame trims to the bare JSON text. */
  lemma SampleFrameTrimmed()
    ensures Trim(" {}\n") == "{}"
  {
    TrimPadded(" ", "{}", "\n");
    assert " " + "{}" + "\n" == " {}\n";
  }

  /** Of the first client's three items only the text frame is forwarded. */
  lemma SampleItemsForwarded(frame: string)
    ensures Forwarded([Text(frame), NonText, ReadError]) == [Trim(frame)]
  {
    var items := [Text(frame), NonText, ReadError];
    assert items[..2] == [Text(frame), NonText];
    assert items[..2][..1] == [Text(frame)];
    assert items[..2][..1][..0] == [];
    assert Forwarded(items[..2][..1]) == [Trim(frame)];
    assert Forwarded(items[..2]) == [Trim(frame)];
  }

  /** The sample run stops at the failed accept and forwards the one frame, trimmed. */
  lemma SampleRunForwarded()
    ensures AcceptedPrefix(SampleRun) == 1
    ensures ForwardedAll(SampleRun[..1]) == ["{}"]
  {
    var conn := SampleRun[0].conn;
    assert AcceptedPrefix(SampleRun[1..]) == 0;
    assert SampleRun[..1] == [Accepted(conn)];
    assert [Accepted(conn)][..0] == [];
    SampleItemsForwarded(conn.items[0].text);
    SampleFrameTrimmed();
  }

  /** Running the accept loop over the sample run. */
  method ForwardOneClient() returns (stopped: bool, forwarded: seq<string>)
    ensures stopped
    ensures forwarded == ["{}"]
  {
    var server := new WebsocketServer();
    stopped := server.Init(SampleRun);
    forwarded := server.forwarded;
    SampleRunForwarded();
  }
}
