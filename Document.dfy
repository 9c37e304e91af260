/**
 * The document manager (`OCAFManager`) as seen by its callers: the sequence
 * of calls made on it, with the viewer and document-tree updates recorded
 * in the same sequence as view events. The manager's replies to `AddShape`,
 * `RemoveShape` and `ReplaceShape` come from an `Answers` oracle that may
 * depend on every earlier call; nothing else about its internals is assumed.
 *
 * A transaction is judged by a small state machine over the calls: a start
 * opens one, a commit or an abort closes it, edits belong inside one, and
 * view events are allowed anywhere.
 */
module Document {
  import opened Geometry

  datatype Call =
    | Start(name: string)
    | Add(shape: ShapeId, title: string)
    | Remove(shape: ShapeId)
    | Replace(original: ShapeId, replacement: ShapeId)
    | Commit
    | Abort
      /** The shape is displayed in the viewer and listed in the document tree. */
    | Show(shape: ShapeId)
      /** The shape is removed from the viewer and from the document tree. */
    | Hide(shape: ShapeId)

  /** The manager's reply to a call, given every call made before it. */
  type Answers = (seq<Call>, Call) -> bool

  predicate IsEdit(c: Call)
  {
    c.Add? || c.Remove? || c.Replace?
  }

  predicate IsView(c: Call)
  {
    c.Show? || c.Hide?
  }

  predicate IsEnd(c: Call)
  {
    c.Commit? || c.Abort?
  }

  /** No transaction open, one open, or the calls broke the bracketing discipline. */
  datatype TxState = Idle | Open | Broken

  function Step(s: TxState, c: Call): TxState
  {
    if IsView(c) || s == Broken then s
    else if c.Start? then (if s == Idle then Open else Broken)
    else if IsEnd(c) then (if s == Open then Idle else Broken)
    else (if s == Open then Open else Broken)
  }

  /** The state after a sequence of calls. */
  function Run(s: TxState, calls: seq<Call>): TxState
  {
    if calls == [] then s else Step(Run(s, calls[..|calls| - 1]), calls[|calls| - 1])
  }

  lemma {:induction false} RunAppend(s: TxState, a: seq<Call>, b: seq<Call>)
    ensures Run(s, a + b) == Run(Run(s, a), b)
    decreases |b|
  {
    if b != [] {
      assert (a + b)[..|a + b| - 1] == a + b[..|b| - 1];
      assert (a + b)[|a + b| - 1] == b[|b| - 1];
      RunAppend(s, a, b[..|b| - 1]);
    } else {
      assert a + b == a;
    }
  }

  /** Edits and view events keep a transaction open. */
  lemma {:induction false} RunInside(body: seq<Call>)
    requires forall c :: c in body ==> IsEdit(c) || IsView(c)
    ensures Run(Open, body) == Open
    decreases |body|
  {
    if body != [] {
      RunInside(body[..|body| - 1]);
    }
  }

  /** View events change nothing about transactions. */
  lemma {:induction false} RunViews(s: TxState, tail: seq<Call>)
    requires forall c :: c in tail ==> IsView(c)
    ensures Run(s, tail) == s
    decreases |tail|
  {
    if tail != [] {
      RunViews(s, tail[..|tail| - 1]);
    }
  }

  /**
   * The calls open exactly one transaction, as their first call, and leave
   * it closed; every edit happens while it is open.
   */
  predicate OneTransaction(d: seq<Call>)
  {
    && |d| > 0 && d[0].Start?
    && (forall j :: 0 < j < |d| ==> !d[j].Start?)
    && Run(Idle, d) == Idle
  }

  predicate Committed(d: seq<Call>)
  {
    OneTransaction(d) && Commit in d
  }

  predicate Aborted(d: seq<Call>)
  {
    OneTransaction(d) && Abort in d
  }

  /** A handler that brackets its edits keeps a document with no open transaction in that state. */
  lemma {:induction false} TransactionKeepsIdle(log: seq<Call>, d: seq<Call>)
    requires Run(Idle, log) == Idle && OneTransaction(d)
    ensures Run(Idle, log + d) == Idle
  {
    RunAppend(Idle, log, d);
  }

  /** While a transaction stays open, no call closed it. */
  lemma {:induction false} OpenHasNoEnd(e: seq<Call>)
    requires forall j :: 0 <= j < |e| ==> !e[j].Start?
    requires Run(Open, e) == Open
    ensures Commit !in e && Abort !in e
    decreases |e|
  {
    if e != [] {
      var init := e[..|e| - 1];
      assert e == init + [e[|e| - 1]];
      OpenHasNoEnd(init);
    }
  }

  /** A transaction, once closed, was closed by exactly one call: a commit or an abort. */
  lemma {:induction false} ClosedByOne(e: seq<Call>)
    requires forall j :: 0 <= j < |e| ==> !e[j].Start?
    requires Run(Open, e) == Idle
    ensures (Commit in e) != (Abort in e)
    decreases |e|
  {
    var init := e[..|e| - 1];
    var last := e[|e| - 1];
    assert e == init + [last];
    if IsView(last) {
      ClosedByOne(init);
    } else {
      OpenHasNoEnd(init);
    }
  }

  /** Every transaction ends in exactly one of commit and abort. */
  lemma CommittedOrAborted(d: seq<Call>)
    requires OneTransaction(d)
    ensures Committed(d) <==> !Aborted(d)
  {
    RunAppend(Idle, [d[0]], d[1..]);
    assert [d[0]] + d[1..] == d;
    ClosedByOne(d[1..]);
  }

  /**
   * A start, edits and view events, one closing call, then view events only:
   * one transaction, committed exactly when the closing call is a commit.
   */
  lemma Bracketed(name: string, body: seq<Call>, end: Call, tail: seq<Call>)
    requires forall c :: c in body ==> IsEdit(c) || IsView(c)
    requires IsEnd(end)
    requires forall c :: c in tail ==> IsView(c)
    ensures OneTransaction([Start(name)] + body + [end] + tail)
    ensures Committed([Start(name)] + body + [end] + tail) <==> end == Commit
    ensures Aborted([Start(name)] + body + [end] + tail) <==> end == Abort
  {
    var d := [Start(name)] + body + [end] + tail;
    RunAppend(Idle, [Start(name)], body);
    assert Run(Idle, [Start(name)]) == Open;
    RunInside(body);
    RunAppend(Idle, [Start(name)] + body, [end]);
    RunAppend(Idle, [Start(name)] + body + [end], tail);
    RunViews(Idle, tail);
    forall j | 0 < j < |d|
      ensures !d[j].Start?
    {
      if j <= |body| {
        assert d[j] == body[j - 1] && body[j - 1] in body;
      } else if j == |body| + 1 {
        assert d[j] == end;
      } else {
        assert d[j] == tail[j - |body| - 2] && tail[j - |body| - 2] in tail;
      }
    }
    assert Commit in d <==> end == Commit;
    assert Abort in d <==> end == Abort;
  }
}
