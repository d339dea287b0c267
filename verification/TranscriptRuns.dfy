/**
 The transcript's rows under optimistic sends, live updates, UI events and fetched pages
 (sendMessage, tryAppendMessageFromUpdate, squashUserEchoes, applyUIEventMessage,
 applyMessagesResponse).
 */
module TranscriptRuns {
  import opened Common
  import opened Messages
  import opened Squash
  import opened Merge

  const UI_PREFIX := "ui-"

  function OptimisticRow(localID: string, signature: string, at: int): Row {
    Row(LOCAL_PREFIX + localID, None, Some(localID), None, User, signature, Some(at))
  }

  function UIEventRow(eventID: string, signature: string, at: Option<int>): Row {
    Row(UI_PREFIX + eventID, None, None, None, EventRole, signature, at)
  }

  function FirstIndex(rows: seq<Row>, p: Row -> bool): (i: Option<nat>)
    ensures i.Some? ==> i.value < |rows| && p(rows[i.value]) && forall k | 0 <= k < i.value :: !p(rows[k])
    ensures i.None? ==> forall r <- rows :: !p(r)
  {
    if rows == [] then None
    else if p(rows[0]) then Some(0)
    else
      var i := FirstIndex(rows[1..], p);
      if i.Some? then Some(i.value + 1) else None
  }

  function LastIndex(rows: seq<Row>, p: Row -> bool): (i: Option<nat>)
    ensures i.Some? ==> i.value < |rows| && p(rows[i.value])
    ensures i.None? ==> forall r <- rows :: !p(r)
    ensures i.Some? ==> forall k | i.value < k < |rows| :: !p(rows[k])
  {
    if rows == [] then None
    else if p(Last(rows)) then Some(|rows| - 1)
    else LastIndex(Init(rows), p)
  }

  function RemoveAt(rows: seq<Row>, i: nat): seq<Row>
    requires i < |rows|
  {
    rows[..i] + rows[i + 1..]
  }

  /** The bubble that the row echoes, by its localID. */
  function OwnBubble(messages: seq<Row>, r: Row): Option<nat> {
    if r.localID.GetOr("") == "" then None
    else FirstIndex(messages, (m: Row) => m.id == LOCAL_PREFIX + r.localID.value)
  }

  /** The duplicate without a uuid that a row with one replaces. */
  function PlainDuplicate(messages: seq<Row>, r: Row): Option<nat> {
    if !r.HasUUID() then None else LastIndex(messages, (m: Row) => Duplicates(m, r) && !m.HasUUID())
  }

  function SimilarBubble(messages: seq<Row>, r: Row): Option<nat> {
    LastIndex(messages, (m: Row) => m.IsOptimistic() && m.signature == r.signature)
  }

  /** What a live server message does to the transcript. */
  function LiveAppend(messages: seq<Row>, r: Row): seq<Row> {
    if exists m <- messages :: m.id == r.id then messages
    else if r.role != User then messages + [r]
    else
      var optimistic := OwnBubble(messages, r);
      if optimistic.Some? then messages[optimistic.value := r]
      else
        var plain := PlainDuplicate(messages, r);
        if plain.Some? then messages[plain.value := r]
        else if !r.HasUUID() && exists m <- messages :: Duplicates(m, r) && m.HasUUID() then messages
        else
          var bubble := SimilarBubble(messages, r);
          (if bubble.Some? then RemoveAt(messages, bubble.value) else messages) + [r]
  }

  datatype Event =
    | Sent(localID: string, signature: string, at: int)
    | LocalNote(note: Row)
    | Live(row: Row)
    | UIEvent(eventID: string, signature: string, atMs: Option<int>)
    | UIEventRemoved(eventID: string)
    | Page(reset: bool, rows: seq<Row>)

  function UpsertUIEvent(messages: seq<Row>, item: Row): seq<Row> {
    var i := FirstIndex(messages, (m: Row) => m.id == item.id);
    if i.Some? then messages[i.value := item] else messages + [item]
  }

  function RemoveById(messages: seq<Row>, id: string): seq<Row> {
    var i := FirstIndex(messages, (m: Row) => m.id == id);
    if i.Some? then RemoveAt(messages, i.value) else messages
  }

  ghost function Step(messages: seq<Row>, e: Event): seq<Row> {
    match e
    case Sent(localID, signature, at) => messages + [OptimisticRow(localID, signature, at)]
    case LocalNote(note) => messages + [note]
    case Live(row) => LiveAppend(messages, row)
    case UIEvent(eventID, signature, atMs) => UpsertUIEvent(messages, UIEventRow(eventID, signature, atMs))
    case UIEventRemoved(eventID) => RemoveById(messages, UI_PREFIX + eventID)
    case Page(reset, rows) => if reset then rows else Merged(messages, rows)
  }

  /** Client ids are fresh UUIDs; server ids are distinct within a page and never carry the local prefix. */
  ghost predicate Admissible(messages: seq<Row>, e: Event) {
    match e
    case Sent(localID, _, _) =>
      localID != "" && forall m <- messages :: m.id != LOCAL_PREFIX + localID && m.localID != Some(localID)
    case LocalNote(note) => note.role == EventRole && forall m <- messages :: m.id != note.id
    case Live(row) => !row.IsLocal()
    case UIEvent(_, _, _) => true
    case UIEventRemoved(_) => true
    case Page(_, rows) => DistinctIds(rows) && forall r <- rows :: !r.IsLocal()
  }

  // ----- The selected session and the transcripts kept -----

  /** The rows shown, the session they are shown for, and the transcripts kept from earlier pages. */
  datatype Screen = Screen(sessionID: string, messages: seq<Row>, cache: map<string, seq<Row>>)

  const EmptyScreen := Screen("", [], map[])

  datatype Action = Select(id: string) | Clear | On(e: Event)

  /** A selection restores the transcript kept, a clearing keeps them all, and only a page updates one. */
  ghost function ScreenStep(s: Screen, a: Action): Screen {
    match a
    case Select(id) => Screen(id, Lookup(s.cache, id).GetOr([]), s.cache)
    case Clear => Screen("", [], s.cache)
    case On(e) =>
      var rows := Step(s.messages, e);
      Screen(s.sessionID, rows, if e.Page? && s.sessionID != "" then s.cache[s.sessionID := rows] else s.cache)
  }

  class Transcript {
    var sessionID: string
    var messages: seq<Row>
    var cache: map<string, seq<Row>>

    ghost function Snapshot(): Screen
      reads this
    {
      Screen(sessionID, messages, cache)
    }

    constructor ()
      ensures Snapshot() == EmptyScreen
    {
      sessionID, messages, cache := "", [], map[];
    }

    method SelectSession(id: string)
      modifies this
      ensures Snapshot() == ScreenStep(old(Snapshot()), Select(id))
    {
      sessionID := id;
      messages := if id in cache then cache[id] else [];
    }

    method ClearSession()
      modifies this
      ensures Snapshot() == ScreenStep(old(Snapshot()), Clear)
    {
      sessionID, messages := "", [];
    }

    method AppendOptimistic(localID: string, signature: string, at: int)
      modifies this`messages
      ensures messages == Step(old(messages), Sent(localID, signature, at))
    {
      messages := messages + [OptimisticRow(localID, signature, at)];
    }

    /** squashUserEchoes: true when the incoming row has been placed or dropped. */
    method SquashUserEchoes(incoming: Row) returns (handled: bool)
      modifies this`messages
      ensures var plain := LastIndex(old(messages), (m: Row) => Duplicates(m, incoming) && !m.HasUUID());
        var covered := exists m <- old(messages) :: Duplicates(m, incoming) && m.HasUUID();
        if incoming.role == User && incoming.HasUUID() && plain.Some? then
          handled && messages == old(messages)[plain.value := incoming]
        else
          messages == old(messages) && (handled <==> incoming.role == User && !incoming.HasUUID() && covered)
    {
      if incoming.role != User { return false; }
      if incoming.HasUUID() {
        var idx := LastIndex(messages, (m: Row) => Duplicates(m, incoming) && !m.HasUUID());
        if idx.Some? {
          messages := messages[idx.value := incoming];
          return true;
        }
        return false;
      }
      return exists m <- messages :: Duplicates(m, incoming) && m.HasUUID();
    }

    method AppendLive(r: Row)
      modifies this`messages
      ensures messages == LiveAppend(old(messages), r)
    {
      if exists m <- messages :: m.id == r.id { return; }
      if r.role == User {
        if r.localID.GetOr("") != "" {
          var idx := FirstIndex(messages, (m: Row) => m.id == LOCAL_PREFIX + r.localID.value);
          if idx.Some? {
            messages := messages[idx.value := r];
            return;
          }
        }
        var handled := SquashUserEchoes(r);
        if handled { return; }
        var idx := LastIndex(messages, (m: Row) => m.IsOptimistic() && m.signature == r.signature);
        if idx.Some? {
          messages := messages[..idx.value] + messages[idx.value + 1..];
        }
      }
      messages := messages + [r];
    }

    method ApplyUIEvent(eventID: string, signature: string, atMs: Option<int>)
      modifies this`messages
      ensures messages == Step(old(messages), UIEvent(eventID, signature, atMs))
    {
      var item := UIEventRow(eventID, signature, atMs);
      var idx := FirstIndex(messages, (m: Row) => m.id == item.id);
      if idx.Some? {
        messages := messages[idx.value := item];
      } else {
        messages := messages + [item];
      }
    }

    method ApplyPage(reset: bool, rows: seq<Row>)
      modifies this`messages, this`cache
      ensures Snapshot() == ScreenStep(old(Snapshot()), On(Page(reset, rows)))
    {
      if reset {
        messages := rows;
      } else {
        messages := MergeMessages(messages, rows);
      }
      if sessionID != "" {
        cache := cache[sessionID := messages];
      }
    }
  }

  // ----- What every run keeps -----

  /** The server's echo of an optimistic bubble. */
  ghost predicate EchoOf(r: Row, bubble: Row) {
    r.role == User && !r.IsLocal() && r.localID == bubble.localID
  }

  ghost predicate WellFormed(messages: seq<Row>) {
    && DistinctIds(messages)
    && (forall b <- messages | b.IsOptimistic() :: b.localID.GetOr("") != "" && b.id == LOCAL_PREFIX + b.localID.value)
    && (forall b <- messages, r <- messages | b.IsOptimistic() :: !EchoOf(r, b))
  }

  lemma AppendKeepsWellFormed(messages: seq<Row>, r: Row)
    requires WellFormed(messages) && forall m <- messages :: m.id != r.id
    requires r.IsOptimistic() ==> r.localID.GetOr("") != "" && r.id == LOCAL_PREFIX + r.localID.value
    requires forall m <- messages :: !(r.IsOptimistic() && EchoOf(m, r)) && !(m.IsOptimistic() && EchoOf(r, m))
    ensures WellFormed(messages + [r])
  {
    assert forall m :: m in messages + [r] <==> m in messages || m == r;
  }

  lemma ReplaceKeepsWellFormed(messages: seq<Row>, i: nat, r: Row)
    requires WellFormed(messages) && i < |messages| && !r.IsOptimistic()
    requires forall k | 0 <= k < |messages| && k != i :: messages[k].id != r.id
    requires forall k | 0 <= k < |messages| && k != i && messages[k].IsOptimistic() :: !EchoOf(r, messages[k])
    ensures WellFormed(messages[i := r])
  {
    var after := messages[i := r];
    forall b, x | b in after && x in after && b.IsOptimistic()
      ensures !EchoOf(x, b) && b.localID.GetOr("") != "" && b.id == LOCAL_PREFIX + b.localID.value
    {
      var kb :| 0 <= kb < |after| && after[kb] == b;
      var kx :| 0 <= kx < |after| && after[kx] == x;
      assert kb != i && b == messages[kb];
      assert kx == i || x == messages[kx];
    }
  }

  lemma RemoveKeepsWellFormed(messages: seq<Row>, i: nat)
    requires WellFormed(messages) && i < |messages|
    ensures WellFormed(RemoveAt(messages, i))
    ensures forall m <- RemoveAt(messages, i) :: m in messages
  {
    var after := RemoveAt(messages, i);
    assert forall k | 0 <= k < |after| :: after[k] == if k < i then messages[k] else messages[k + 1];
  }

  /** A user row arriving with a localID whose bubble is gone cannot be the echo of another bubble. */
  lemma LiveKeepsWellFormed(messages: seq<Row>, r: Row)
    requires WellFormed(messages) && !r.IsLocal()
    ensures WellFormed(LiveAppend(messages, r))
  {
    if (exists m <- messages :: m.id == r.id) || (r.role == User && LiveAppend(messages, r) == messages) {
    } else if r.role != User {
      AppendKeepsWellFormed(messages, r);
    } else {
      var optimistic := OwnBubble(messages, r);
      if optimistic.Some? {
        assert forall k | 0 <= k < |messages| && k != optimistic.value ::
          messages[k].id != messages[optimistic.value].id;
        ReplaceKeepsWellFormed(messages, optimistic.value, r);
      } else {
        assert forall m <- messages | m.IsOptimistic() :: !EchoOf(r, m);
        var plain := PlainDuplicate(messages, r);
        if plain.Some? {
          ReplaceKeepsWellFormed(messages, plain.value, r);
        } else {
          var bubble := SimilarBubble(messages, r);
          if bubble.Some? {
            RemoveKeepsWellFormed(messages, bubble.value);
            AppendKeepsWellFormed(RemoveAt(messages, bubble.value), r);
          } else {
            AppendKeepsWellFormed(messages, r);
          }
        }
      }
    }
  }

  lemma PageKeepsWellFormed(messages: seq<Row>, rows: seq<Row>)
    requires WellFormed(messages) && DistinctIds(rows) && forall r <- rows :: !r.IsLocal()
    ensures WellFormed(Merged(messages, rows))
  {
    var merged := Merged(messages, rows);
    if messages != [] && rows != [] {
      MergeIsOrdered(messages, rows);
      forall b, r | b in merged && r in merged && b.IsOptimistic()
        ensures b in messages && !EchoOf(r, b)
      {
        MergeInventsNothing(messages, rows, b);
        MergeInventsNothing(messages, rows, r);
        assert b in messages;
        assert r in rows && EchoOf(r, b) ==> LocalIdEchoed(b, rows);
      }
    }
  }

  lemma StepKeepsWellFormed(messages: seq<Row>, e: Event)
    requires WellFormed(messages) && Admissible(messages, e)
    ensures WellFormed(Step(messages, e))
  {
    match e
    case Sent(localID, signature, at) =>
      var row := OptimisticRow(localID, signature, at);
      assert forall m <- messages | m.IsOptimistic() :: !EchoOf(row, m);
      AppendKeepsWellFormed(messages, row);
    case LocalNote(note) => AppendKeepsWellFormed(messages, note);
    case Live(row) => LiveKeepsWellFormed(messages, row);
    case UIEvent(eventID, signature, atMs) =>
      var item := UIEventRow(eventID, signature, atMs);
      var i := FirstIndex(messages, (m: Row) => m.id == item.id);
      if i.Some? {
        ReplaceKeepsWellFormed(messages, i.value, item);
      } else {
        AppendKeepsWellFormed(messages, item);
      }
    case UIEventRemoved(eventID) =>
      var i := FirstIndex(messages, (m: Row) => m.id == UI_PREFIX + eventID);
      if i.Some? {
        RemoveKeepsWellFormed(messages, i.value);
      }
    case Page(reset, rows) => PageKeepsWellFormed(messages, rows);
  }

  ghost function Run(actions: seq<Action>): Screen {
    if actions == [] then EmptyScreen else ScreenStep(Run(actions[..|actions| - 1]), actions[|actions| - 1])
  }

  ghost predicate AdmissibleRun(actions: seq<Action>) {
    actions != [] ==>
      var init, a := actions[..|actions| - 1], actions[|actions| - 1];
      AdmissibleRun(init) && (a.On? ==> Admissible(Run(init).messages, a.e))
  }

  ghost predicate ScreenWellFormed(s: Screen) {
    WellFormed(s.messages) && forall id <- s.cache :: WellFormed(s.cache[id])
  }

  lemma ActionKeepsWellFormed(s: Screen, a: Action)
    requires ScreenWellFormed(s) && (a.On? ==> Admissible(s.messages, a.e))
    ensures ScreenWellFormed(ScreenStep(s, a))
  {
    if a.On? {
      StepKeepsWellFormed(s.messages, a.e);
    }
  }

  /**
   In every run, whatever is selected in between, row ids stay distinct in what is shown and in every
   transcript kept, and an optimistic bubble never stands beside the server's echo of it.
   */
  lemma {:induction false} EveryTranscriptWellFormed(actions: seq<Action>)
    requires AdmissibleRun(actions)
    ensures ScreenWellFormed(Run(actions))
    ensures var rows := Run(actions).messages;
      DistinctIds(rows) && forall b <- rows, r <- rows | b.IsOptimistic() :: !EchoOf(r, b)
  {
    if actions != [] {
      EveryTranscriptWellFormed(actions[..|actions| - 1]);
      ActionKeepsWellFormed(Run(actions[..|actions| - 1]), actions[|actions| - 1]);
    }
  }

  /** What a live user row may take the place of. */
  ghost predicate Displaces(r: Row, m: Row) {
    && r.role == User
    && ((r.localID.GetOr("") != "" && m.id == LOCAL_PREFIX + r.localID.value)
      || (m.IsOptimistic() && m.signature == r.signature)
      || GivesWay(m, r))
  }

  lemma ReplaceOrRemoveKeeps(messages: seq<Row>, i: nat, r: Row)
    requires i < |messages|
    ensures forall m <- messages :: m == messages[i] || (m in messages[i := r] && m in RemoveAt(messages, i))
    ensures r in messages[i := r]
  {
    forall m | m in messages && m != messages[i]
      ensures m in messages[i := r] && m in RemoveAt(messages, i)
    {
      var k :| 0 <= k < |messages| && messages[k] == m;
      assert messages[i := r][k] == m && RemoveAt(messages, i)[if k < i then k else k - 1] == m;
    }
    assert messages[i := r][i] == r;
  }

  /**
   A live message displaces only user rows: its own bubble, a bubble with the same content, or a
   duplicate that gives way to it. It is itself left out only if its id, or a duplicate of it
   with a uuid, is there already.
   */
  lemma LiveLosesNothing(messages: seq<Row>, r: Row)
    ensures var after := LiveAppend(messages, r);
      && (forall m <- messages :: m in after || (r in after && Displaces(r, m)))
      && (r in after || (after == messages && exists m <- messages :: m.id == r.id || (GivesWay(r, m) && m.HasUUID())))
  {
    if r.role == User && !exists m <- messages :: m.id == r.id {
      var optimistic := OwnBubble(messages, r);
      var plain := PlainDuplicate(messages, r);
      var bubble := SimilarBubble(messages, r);
      if optimistic.Some? {
        ReplaceOrRemoveKeeps(messages, optimistic.value, r);
      } else if plain.Some? {
        ReplaceOrRemoveKeeps(messages, plain.value, r);
      } else if bubble.Some? {
        ReplaceOrRemoveKeeps(messages, bubble.value, r);
      }
    }
  }

  // ----- Where each row goes -----

  /** The row at i is replaced, in its place. */
  ghost predicate Replaced(before: seq<Row>, after: seq<Row>, i: nat, r: Row) {
    i < |before| && after == before[..i] + [r] + before[i + 1..]
  }

  /** A live message that the transcript has is ignored, and one that is not the user's goes to the end. */
  lemma LiveGoesLast(messages: seq<Row>, r: Row)
    ensures (exists m <- messages :: m.id == r.id) ==> LiveAppend(messages, r) == messages
    ensures r.role != User && (forall m <- messages :: m.id != r.id) ==> LiveAppend(messages, r) == messages + [r]
  {
  }

  ghost predicate IsOwnBubble(m: Row, r: Row) {
    r.localID.Some? && r.localID.value != "" && m.id == "local-" + r.localID.value
  }

  /** A user row takes the place of its own bubble, the first if there are more. */
  lemma EchoReplacesItsBubble(messages: seq<Row>, r: Row)
    requires r.role == User && (forall m <- messages :: m.id != r.id) && exists m <- messages :: IsOwnBubble(m, r)
    ensures exists i: nat ::
      && Replaced(messages, LiveAppend(messages, r), i, r) && IsOwnBubble(messages[i], r)
      && forall k | 0 <= k < i :: !IsOwnBubble(messages[k], r)
  {
    var i := OwnBubble(messages, r).value;
    assert Replaced(messages, LiveAppend(messages, r), i, r);
  }

  ghost predicate NoneKnown(messages: seq<Row>, r: Row) {
    r.role == User && forall m <- messages :: m.id != r.id && !IsOwnBubble(m, r)
  }

  /** Without one, a row with a uuid takes the place of the last duplicate that has none. */
  lemma UUIDReplacesPlain(messages: seq<Row>, r: Row)
    requires NoneKnown(messages, r) && r.HasUUID() && exists m <- messages :: Duplicates(m, r) && !m.HasUUID()
    ensures exists i: nat ::
      && Replaced(messages, LiveAppend(messages, r), i, r)
      && Duplicates(messages[i], r) && !messages[i].HasUUID()
      && forall k | i < k < |messages| :: !(Duplicates(messages[k], r) && !messages[k].HasUUID())
  {
    var i := PlainDuplicate(messages, r).value;
    assert Replaced(messages, LiveAppend(messages, r), i, r);
  }

  /** A row without a uuid is dropped if a duplicate with one is there. */
  lemma PlainIsDropped(messages: seq<Row>, r: Row)
    requires NoneKnown(messages, r) && !r.HasUUID() && exists m <- messages :: Duplicates(m, r) && m.HasUUID()
    ensures LiveAppend(messages, r) == messages
  {
  }

  /** Any other user row goes to the end, and the last bubble with its content goes away. */
  lemma OtherUserRowGoesLast(messages: seq<Row>, r: Row)
    requires NoneKnown(messages, r) && forall m <- messages :: Duplicates(m, r) ==> m.HasUUID() == r.HasUUID()
    ensures var after := LiveAppend(messages, r);
      if exists m <- messages :: m.IsOptimistic() && m.signature == r.signature then
        exists i: nat | i < |messages| ::
          && after == messages[..i] + messages[i + 1..] + [r]
          && messages[i].IsOptimistic() && messages[i].signature == r.signature
          && forall k | i < k < |messages| :: !(messages[k].IsOptimistic() && messages[k].signature == r.signature)
      else after == messages + [r]
  {
    var i := SimilarBubble(messages, r);
    if i.Some? {
      assert LiveAppend(messages, r) == messages[..i.value] + messages[i.value + 1..] + [r];
    }
  }

  ghost predicate IsSentRow(row: Row, e: Event)
    requires e.Sent?
  {
    && row.id == "local-" + e.localID && row.localID == Some(e.localID) && row.role == User
    && row.signature == e.signature && row.createdAt == Some(e.at) && row.seqNo.None? && row.uuid.None?
  }

  /** A sent message is shown last, as a bubble, and so is a local note. */
  lemma OwnRowsGoLast(messages: seq<Row>, e: Event)
    requires e.Sent? || e.LocalNote?
    ensures var after := Step(messages, e);
      && |after| == |messages| + 1 && after[..|messages|] == messages
      && (e.LocalNote? ==> after[|messages|] == e.note)
      && (e.Sent? ==> IsSentRow(after[|messages|], e))
  {
  }

  ghost predicate IsUIEventRow(row: Row, e: Event)
    requires e.UIEvent?
  {
    && row.id == "ui-" + e.eventID && row.role == EventRole && row.signature == e.signature
    && row.createdAt == e.atMs && row.seqNo.None? && row.localID.None? && row.uuid.None?
  }

  /** A UI event is shown in the place of its row, the first if there are more, or else last. */
  lemma UIEventKeepsItsPlace(messages: seq<Row>, e: Event) returns (row: Row, i: nat)
    requires e.UIEvent?
    ensures IsUIEventRow(row, e)
    ensures if exists m <- messages :: m.id == row.id
      then Replaced(messages, Step(messages, e), i, row) && messages[i].id == row.id
        && forall k | 0 <= k < i :: messages[k].id != row.id
      else Step(messages, e) == messages + [row]
  {
    row := UIEventRow(e.eventID, e.signature, e.atMs);
    i := FirstIndex(messages, (m: Row) => m.id == row.id).GetOr(0);
  }

  /** Removing a UI event takes out its row, and leaves the others in order. */
  lemma RemovalTakesOneRow(messages: seq<Row>, eventID: string)
    ensures var after := Step(messages, UIEventRemoved(eventID));
      if exists m <- messages :: m.id == "ui-" + eventID then
        exists i: nat | i < |messages| ::
          messages[i].id == "ui-" + eventID && after == messages[..i] + messages[i + 1..]
      else after == messages
  {
    var i := FirstIndex(messages, (m: Row) => m.id == "ui-" + eventID);
    if i.Some? {
      assert messages[i.value].id == "ui-" + eventID;
    }
  }

  /** A reset page is what is shown; another is merged into the rows, and both are kept as shown. */
  lemma PageIsShownAndKept(s: Screen, reset: bool, rows: seq<Row>)
    ensures var t := ScreenStep(s, On(Page(reset, rows)));
      && t.messages == (if reset then rows else Merged(s.messages, rows)) && t.sessionID == s.sessionID
      && (s.sessionID != "" ==> t.cache == s.cache[s.sessionID := t.messages])
      && (s.sessionID == "" ==> t.cache == s.cache)
  {
  }

  // ----- What a selection restores -----

  /** The rows shown for a session after its last page. */
  ghost function LastPaged(actions: seq<Action>, id: string): Option<seq<Row>> {
    if actions == [] then None
    else
      var init, a := actions[..|actions| - 1], actions[|actions| - 1];
      if a.On? && a.e.Page? && Run(init).sessionID == id then Some(Run(actions).messages) else LastPaged(init, id)
  }

  lemma {:induction false} KeptIsLastPaged(actions: seq<Action>, id: string)
    requires id != ""
    ensures Lookup(Run(actions).cache, id) == LastPaged(actions, id)
  {
    if actions != [] {
      KeptIsLastPaged(actions[..|actions| - 1], id);
    }
  }

  /** A selection shows the rows that the session's last page left, or none; clearing shows none. */
  lemma SelectionRestores(actions: seq<Action>, id: string)
    requires id != ""
    ensures var selected, cleared := Run(actions + [Select(id)]), Run(actions + [Clear]);
      && selected.sessionID == id && selected.messages == LastPaged(actions, id).GetOr([])
      && selected.cache == cleared.cache == Run(actions).cache
      && cleared.sessionID == "" && cleared.messages == []
  {
    KeptIsLastPaged(actions, id);
    assert (actions + [Select(id)])[..|actions|] == actions && (actions + [Clear])[..|actions|] == actions;
  }
}
