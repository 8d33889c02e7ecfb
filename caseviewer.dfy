/**
 * The version history of components/CaseViewer.tsx: a list of snapshots of the case text
 * and the teaching notes plus the index of the current one, and the refine handler that
 * sends one of the two texts to a rewriting service.
 */
module CaseViewer {
  import opened Wrappers
  import opened Types

  datatype Snapshot = Snapshot(caseContent: string, teachingNotes: string)

  /** The history as a value: the snapshots and the index of the current one. */
  datatype Timeline = Timeline(entries: seq<Snapshot>, index: nat)

  /** The index invariant: inside the list, or zero while the list is empty. */
  predicate ValidTimeline(t: Timeline) {
    if t.entries == [] then t.index == 0 else t.index < |t.entries|
  }

  /** The current snapshot; `history[historyIndex]` is undefined while the list is empty. */
  function Current(t: Timeline): Option<Snapshot> {
    if t.index < |t.entries| then Some(t.entries[t.index]) else None
  }

  /** The strict comparison of the current snapshot with the document; a missing field differs. */
  predicate Differs(s: Snapshot, caseContent: Option<string>, teachingNotes: Option<string>) {
    caseContent != Some(s.caseContent) || teachingNotes != Some(s.teachingNotes)
  }

  /** The mount effect: a first snapshot when the list is empty and there is case text. */
  function Mounted(t: Timeline, caseContent: Option<string>, teachingNotes: Option<string>): Timeline {
    if t.entries == [] && Truthy(caseContent) then
      Timeline([Snapshot(caseContent.value, OrEmpty(teachingNotes))], t.index)
    else t
  }

  /** The sync effect on a change of the document. */
  function Synced(t: Timeline, caseContent: Option<string>, teachingNotes: Option<string>): Timeline {
    if Current(t).Some? && Differs(Current(t).value, caseContent, teachingNotes) then
      Timeline(t.entries[..t.index + 1] + [Snapshot(OrEmpty(caseContent), OrEmpty(teachingNotes))], t.index + 1)
    else t
  }

  function Undone(t: Timeline): Timeline {
    if t.index > 0 then Timeline(t.entries, t.index - 1) else t
  }

  function Redone(t: Timeline): Timeline {
    if t.index < |t.entries| - 1 then Timeline(t.entries, t.index + 1) else t
  }

  // ---------------------------------------------------------------------------
  // Properties of the history

  /** Every operation keeps the index invariant. */
  lemma OperationsKeepValid(t: Timeline, caseContent: Option<string>, teachingNotes: Option<string>)
    requires ValidTimeline(t)
    ensures ValidTimeline(Mounted(t, caseContent, teachingNotes))
    ensures ValidTimeline(Synced(t, caseContent, teachingNotes))
    ensures ValidTimeline(Undone(t)) && ValidTimeline(Redone(t))
  {
  }

  /** Mounting records the case text exactly when nothing is recorded yet and there is case text. */
  lemma MountRecordsFirst(t: Timeline, caseContent: Option<string>, teachingNotes: Option<string>)
    requires ValidTimeline(t)
    ensures var m := Mounted(t, caseContent, teachingNotes);
      && (m != t <==> t.entries == [] && Truthy(caseContent))
      && (m != t ==> Current(m) == Some(Snapshot(caseContent.value, OrEmpty(teachingNotes))))
  {
  }

  /**
   * A differing edit keeps the snapshots up to the current one, drops the redo branch,
   * appends the edit and makes it current; an identical one changes nothing.
   */
  lemma SyncTruncatesAndAppends(t: Timeline, caseContent: Option<string>, teachingNotes: Option<string>)
    requires ValidTimeline(t) && t.entries != []
    ensures var s := Synced(t, caseContent, teachingNotes);
      if Differs(t.entries[t.index], caseContent, teachingNotes) then
        && |s.entries| == t.index + 2
        && s.entries[..t.index + 1] == t.entries[..t.index + 1]
        && s.index == |s.entries| - 1
        && Current(s) == Some(Snapshot(OrEmpty(caseContent), OrEmpty(teachingNotes)))
        && Redone(s) == s
      else s == t
  {
  }

  /** Before mounting nothing is recorded, whatever the document. */
  lemma SyncBeforeMount(t: Timeline, caseContent: Option<string>, teachingNotes: Option<string>)
    requires ValidTimeline(t) && t.entries == []
    ensures Synced(t, caseContent, teachingNotes) == t
  {
  }

  /** Syncing with a complete document twice records it once. */
  lemma SyncIdempotent(t: Timeline, caseContent: string, teachingNotes: string)
    requires ValidTimeline(t)
    ensures var s := Synced(t, Some(caseContent), Some(teachingNotes));
      Synced(s, Some(caseContent), Some(teachingNotes)) == s
  {
  }

  /** Undo at the first snapshot and redo at the last are no-ops. */
  lemma UndoRedoAtEnds(t: Timeline)
    requires ValidTimeline(t)
    ensures t.index == 0 ==> Undone(t) == t
    ensures t.index + 1 >= |t.entries| ==> Redone(t) == t
    ensures t.index > 0 ==> Undone(t) != t
    ensures t.index + 1 < |t.entries| ==> Redone(t) != t
  {
  }

  /** Undo and redo are inverse wherever they move, and neither touches the snapshots. */
  lemma UndoRedoInverse(t: Timeline)
    requires ValidTimeline(t)
    ensures Undone(t).entries == t.entries && Redone(t).entries == t.entries
    ensures t.index > 0 ==> Redone(Undone(t)) == t
    ensures t.index + 1 < |t.entries| ==> Undone(Redone(t)) == t
  {
  }

  /**
   * Undo hands the restored snapshot to the document; the sync effect that the change
   * triggers then finds no difference, so the redo branch survives.
   */
  lemma UndoThenSyncKeepsRedo(t: Timeline)
    requires ValidTimeline(t) && t.index > 0
    ensures var u := Undone(t);
      var s := u.entries[u.index];
      && Synced(u, Some(s.caseContent), Some(s.teachingNotes)) == u
      && Redone(u) == t
  {
  }

  // ---------------------------------------------------------------------------
  // The history state of the component

  class History {
    var entries: seq<Snapshot>
    var index: nat

    function State(): Timeline
      reads this
    {
      Timeline(entries, index)
    }

    ghost predicate Valid()
      reads this
    {
      ValidTimeline(State())
    }

    /** `useState([])` and `useState(0)`. */
    constructor ()
      ensures entries == [] && index == 0 && Valid()
    {
      entries := [];
      index := 0;
    }

    /** The mount effect. */
    method Mount(caseContent: Option<string>, teachingNotes: Option<string>)
      requires Valid()
      modifies this
      ensures Valid() && State() == Mounted(old(State()), caseContent, teachingNotes)
    {
      if |entries| == 0 && caseContent.Some? && caseContent.value != "" {
        entries := [Snapshot(caseContent.value, OrEmpty(teachingNotes))];
      }
    }

    /** The effect that records an external change of the document. */
    method Sync(caseContent: Option<string>, teachingNotes: Option<string>)
      requires Valid()
      modifies this
      ensures Valid() && State() == Synced(old(State()), caseContent, teachingNotes)
    {
      if index < |entries| {
        var current := entries[index];
        if current.caseContent != OrEmpty(caseContent) || caseContent.None?
          || current.teachingNotes != OrEmpty(teachingNotes) || teachingNotes.None?
        {
          var newHistory := entries[..index + 1];
          newHistory := newHistory + [Snapshot(OrEmpty(caseContent), OrEmpty(teachingNotes))];
          entries := newHistory;
          index := |newHistory| - 1;
        }
      }
    }

    /** `handleUndo`: steps back and returns the snapshot to hand to the document, if any. */
    method Undo() returns (restored: Option<Snapshot>)
      requires Valid()
      modifies this
      ensures Valid() && State() == Undone(old(State()))
      ensures restored == (if old(index) > 0 then Current(State()) else None)
    {
      restored := None;
      if index > 0 {
        var prevIndex := index - 1;
        index := prevIndex;
        restored := Some(entries[prevIndex]);
      }
    }

    /** `handleRedo`. */
    method Redo() returns (restored: Option<Snapshot>)
      requires Valid()
      modifies this
      ensures Valid() && State() == Redone(old(State()))
      ensures restored == (if old(index) + 1 < |entries| then Current(State()) else None)
    {
      restored := None;
      if index < |entries| - 1 {
        var nextIndex := index + 1;
        index := nextIndex;
        restored := Some(entries[nextIndex]);
      }
    }
  }

  // ---------------------------------------------------------------------------
  // executeRefine

  datatype Target = CaseText | Notes

  /** The alert shown when a rewrite fails for another reason. */
  const RefineFailedAlert: string := "\U{4FEE}\U{6539}\U{9047}\U{5230}\U{95EE}\U{9898}\U{FF0C}\U{8BF7}\U{91CD}\U{8BD5}\U{3002}"

  /** What a refine request does to the document, and the alert it raises, if any. */
  datatype RefineOutcome = RefineOutcome(data: CaseStudyData, alert: Option<string>)

  /**
   * `executeRefine`: the target defaults to the case text; nothing happens when the targeted
   * text is missing or empty; otherwise the reply of `refine` replaces that text.
   */
  function ExecuteRefine(
    data: CaseStudyData, instruction: Option<string>, selectedText: Option<string>, targetSource: Option<Target>,
    refine: (string, Option<string>, Option<string>) -> Reply<string>): (o: RefineOutcome)
    ensures var target := if targetSource.Some? then targetSource.value else CaseText;
      var fullText := if target == CaseText then data.caseContent else data.teachingNotes;
      && (!Truthy(fullText) ==> o == RefineOutcome(data, None))
      && (Truthy(fullText) && refine(fullText.value, instruction, selectedText).Success? ==>
            o.alert == None
            && o.data == (if target == CaseText
                          then data.(caseContent := Some(refine(fullText.value, instruction, selectedText).value))
                          else data.(teachingNotes := Some(refine(fullText.value, instruction, selectedText).value))))
      && (Truthy(fullText) && refine(fullText.value, instruction, selectedText).Failure? ==>
            o.data == data
            && (o.alert == None <==> refine(fullText.value, instruction, selectedText).error == Stopped))
  {
    var target := if targetSource.Some? then targetSource.value else CaseText;
    var fullText := if target == CaseText then data.caseContent else data.teachingNotes;
    if fullText.None? || fullText.value == "" then RefineOutcome(data, None)
    else
      var reply := refine(fullText.value, instruction, selectedText);
      if reply.Failure? then
        RefineOutcome(data, if reply.error == Stopped then None else Some(RefineFailedAlert))
      else if target == CaseText then RefineOutcome(data.(caseContent := Some(reply.value)), None)
      else RefineOutcome(data.(teachingNotes := Some(reply.value)), None)
  }

  /** A refine request never changes the text it does not target, nor anything else. */
  lemma RefineChangesOnlyTarget(
    data: CaseStudyData, instruction: Option<string>, selectedText: Option<string>, targetSource: Option<Target>,
    refine: (string, Option<string>, Option<string>) -> Reply<string>)
    ensures var o := ExecuteRefine(data, instruction, selectedText, targetSource, refine);
      && o.data.(caseContent := data.caseContent, teachingNotes := data.teachingNotes) == data
      && (targetSource != Some(Notes) ==> o.data.teachingNotes == data.teachingNotes)
      && (targetSource == Some(Notes) ==> o.data.caseContent == data.caseContent)
  {
  }
}
