/** Per-session prompt history with a bash-like cursor (stepPromptHistory, recordPromptHistory). */
module PromptHistory {
  import opened Common
  import opened Text

  datatype History = History(entries: seq<string>, cursor: Option<nat>, draft: Option<string>)

  const NoHistory := History([], None, None)

  /** The cursor points at an entry, a draft is kept exactly while browsing, and no entry repeats the one before. */
  ghost predicate WellFormed(h: History) {
    && (h.cursor.Some? ==> h.cursor.value < |h.entries|)
    && (h.cursor.Some? <==> h.draft.Some?)
    && (forall i | 0 < i < |h.entries| :: h.entries[i] != h.entries[i - 1])
    && (forall e <- h.entries :: e != "" && Trimmed(e))
  }

  /** One step older (direction < 0) or newer (direction > 0): the new history and input text. */
  function Stepped(h: History, text: string, direction: int): (History, string)
    requires h.cursor.Some? ==> h.cursor.value < |h.entries|
  {
    var n := |h.entries|;
    if direction == 0 || n == 0 then (h, text)
    else
      match h.cursor
      case None =>
        if direction < 0 then (History(h.entries, Some(n - 1), Some(text)), h.entries[n - 1]) else (h, text)
      case Some(cursor) =>
        if direction < 0 then
          var older := if cursor > 0 then cursor - 1 else 0;
          (h.(cursor := Some(older)), h.entries[older])
        else if cursor + 1 < n then (h.(cursor := Some(cursor + 1)), h.entries[cursor + 1])
        else (History(h.entries, None, None), h.draft.GetOr(""))
  }

  function Recorded(h: History, text: string): History {
    var normalized := Trim(text);
    if normalized == "" then h
    else
      History(
        if h.entries != [] && h.entries[|h.entries| - 1] == normalized then h.entries else h.entries + [normalized],
        None, None)
  }

  lemma RecordedWellFormed(h: History, text: string)
    requires WellFormed(h)
    ensures WellFormed(Recorded(h, text))
    ensures if Trim(text) == "" then Recorded(h, text) == h
      else Recorded(h, text).cursor.None? && Recorded(h, text).draft.None?
  {
  }

  /** A prompt that is not blank is the first one offered again. */
  lemma RecordedIsOfferedFirst(h: History, text: string, draft: string)
    requires WellFormed(h) && Trim(text) != ""
    ensures Stepped(Recorded(h, text), draft, -1).1 == Trim(text)
    ensures h.entries <= Recorded(h, text).entries && |Recorded(h, text).entries| <= |h.entries| + 1
  {
  }

  class PromptBox {
    var sessionID: string
    var messageText: string
    var promptHistoryBySession: map<string, History>

    ghost predicate Valid()
      reads this
    {
      forall id <- promptHistoryBySession :: WellFormed(promptHistoryBySession[id])
    }

    function HistoryOf(id: string): History
      reads this
    {
      Lookup(promptHistoryBySession, id).GetOr(NoHistory)
    }

    constructor ()
      ensures Valid() && promptHistoryBySession == map[]
    {
      sessionID, messageText, promptHistoryBySession := "", "", map[];
    }

    method StepPromptHistory(direction: int, target: Option<string>)
      requires Valid()
      modifies this`messageText, this`promptHistoryBySession
      ensures Valid()
      ensures var id := target.GetOr(sessionID);
        && (forall other: string | other != id :: HistoryOf(other) == old(HistoryOf(other)))
        && (HistoryOf(id), messageText)
          == if id == "" then old((HistoryOf(id), messageText))
            else Stepped(old(HistoryOf(id)), old(messageText), direction)
    {
      var id := target.GetOr(sessionID);
      if id == "" || direction == 0 { return; }
      var state := HistoryOf(id);
      if state.entries == [] { return; }
      if state.cursor.None? {
        state := state.(draft := Some(messageText));
      }
      if direction < 0 {
        if state.cursor.Some? {
          state := state.(cursor := Some(if state.cursor.value > 0 then state.cursor.value - 1 else 0));
        } else {
          state := state.(cursor := Some(|state.entries| - 1));
        }
      } else {
        if state.cursor.None? { return; }
        var next := state.cursor.value + 1;
        state := state.(cursor := if next >= |state.entries| then None else Some(next));
      }
      if state.cursor.Some? {
        messageText := state.entries[state.cursor.value];
      } else {
        messageText := state.draft.GetOr("");
        state := state.(draft := None);
      }
      promptHistoryBySession := promptHistoryBySession[id := state];
    }

    method ResetPromptHistoryCursor(target: Option<string>)
      requires Valid()
      modifies this`promptHistoryBySession
      ensures Valid()
      ensures forall id: string ::
        HistoryOf(id) == old(if id == target.GetOr(sessionID) && id != ""
          then HistoryOf(id).(cursor := None, draft := None) else HistoryOf(id))
    {
      var id := target.GetOr(sessionID);
      if id == "" { return; }
      promptHistoryBySession := promptHistoryBySession[id := HistoryOf(id).(cursor := None, draft := None)];
    }

    method RecordPromptHistory(text: string, id: string)
      requires Valid()
      modifies this`promptHistoryBySession
      ensures Valid()
      ensures HistoryOf(id) == Recorded(old(HistoryOf(id)), text)
      ensures forall other: string | other != id :: HistoryOf(other) == old(HistoryOf(other))
    {
      var normalized := Trim(text);
      if normalized == "" { return; }
      var state := HistoryOf(id);
      if state.entries == [] || state.entries[|state.entries| - 1] != normalized {
        state := state.(entries := state.entries + [normalized]);
      }
      RecordedWellFormed(HistoryOf(id), text);
      assert state.(cursor := None, draft := None) == Recorded(HistoryOf(id), text);
      promptHistoryBySession := promptHistoryBySession[id := state.(cursor := None, draft := None)];
    }
  }

  // ----- Older, then newer -----

  lemma SteppedWellFormed(h: History, text: string, direction: int)
    requires WellFormed(h)
    ensures WellFormed(Stepped(h, text, direction).0)
    ensures Stepped(h, text, direction).0.entries == h.entries
    ensures direction == 0 || (direction > 0 && h.cursor.None?) ==> Stepped(h, text, direction) == (h, text)
  {
  }

  function Steps(h: History, text: string, direction: int, k: nat): (r: (History, string))
    requires WellFormed(h)
    ensures WellFormed(r.0)
  {
    if k == 0 then (h, text)
    else
      var (before, shown) := Steps(h, text, direction, k - 1);
      SteppedWellFormed(before, shown, direction);
      Stepped(before, shown, direction)
  }

  lemma {:induction false} OlderClimbs(h: History, text: string, k: nat)
    requires WellFormed(h) && h.cursor.None? && h.entries != [] && 1 <= k
    ensures var cursor := if k <= |h.entries| then |h.entries| - k else 0;
      Steps(h, text, -1, k) == (History(h.entries, Some(cursor), Some(text)), h.entries[cursor])
  {
    if k > 1 {
      OlderClimbs(h, text, k - 1);
    }
  }

  lemma {:induction false} NewerDescends(h: History, text: string, k: nat)
    requires WellFormed(h) && h.cursor.Some? && 1 <= k
    ensures var (after, shown) := Steps(h, text, 1, k);
      if h.cursor.value + k < |h.entries| then
        after == h.(cursor := Some(h.cursor.value + k)) && shown == h.entries[h.cursor.value + k]
      else
        after == History(h.entries, None, None) && shown == h.draft.value
  {
    if k > 1 {
      NewerDescends(h, text, k - 1);
    }
  }

  /**
   From any draft, k steps older and then k steps newer bring back the draft and the history as it
   was, not browsing, even when k exceeds the number of entries.
   */
  lemma OlderThenNewerRestores(h: History, text: string, k: nat)
    requires WellFormed(h) && h.cursor.None? && 1 <= k
    ensures var (older, shown) := Steps(h, text, -1, k);
      Steps(older, shown, 1, k) == (h, text)
  {
    if h.entries == [] {
      EmptyHistoryStays(h, text, -1, k);
      EmptyHistoryStays(h, text, 1, k);
    } else {
      OlderClimbs(h, text, k);
      var (older, shown) := Steps(h, text, -1, k);
      NewerDescends(older, shown, k);
    }
  }

  lemma {:induction false} EmptyHistoryStays(h: History, text: string, direction: int, k: nat)
    requires WellFormed(h) && h.entries == []
    ensures Steps(h, text, direction, k) == (h, text)
  {
    if k > 0 {
      EmptyHistoryStays(h, text, direction, k - 1);
    }
  }
}
