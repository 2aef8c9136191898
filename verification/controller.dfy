/** The history page (app/page.tsx) as a sequential state machine: each
    event handler of the component is a pure transition on `State`. The
    browser's local storage is part of the state; the clock readings, the
    settled server-action call and whether a storage write succeeds come in
    as an `Env`. */
module Controller {

  import opened Maybe
  import opened Text
  import opened Lines
  import Decimal
  import opened Gateway

  /** One history record (`SummaryEntry`). */
  datatype Entry = Entry(
    id: string,
    originalText: string,
    summaryText: string,
    summaryType: Mode,
    timestamp: int)

  /** The local-storage key under which the history is kept. */
  const StorageKey := "summaryEntries"

  /** Local storage, with a stored JSON list already parsed back into
      entries (stringify followed by parse is the identity on entry lists). */
  type Storage = map<string, seq<Entry>>

  /** The component's state hooks together with local storage. */
  datatype State = State(
    text: string,
    mode: Mode,
    entries: seq<Entry>,
    isLoading: bool,
    expanded: map<string, bool>,
    storage: Storage)

  /** What the outside world contributes to one submit: the settled server
      action (`None` when the awaited call rejected), the two separate
      `Date.now()` readings, and whether `localStorage.setItem` succeeds. */
  datatype Env = Env(
    reply: Option<string>,
    idClock: int,
    stampClock: int,
    storageWritable: bool)

  /** A transition's new state and whether it raised the `alert`. */
  datatype Step = Step(state: State, alerted: bool)

  /** More than this many lines, or more than `CharLimit` UTF-16 code
      units, and an entry's original text gets a "Show more" control. */
  const LineLimit := 4
  const CharLimit := 500

  /** The state of the first render, before the load effect ran: the
      hooks' initial values. */
  function Fresh(storage: Storage): (s: State)
    ensures s.text == "" && s.mode == Sentence && s.entries == []
    ensures !s.isLoading && s.expanded == map[] && s.storage == storage
  {
    State("", Sentence, [], false, map[], storage)
  }

  /** The mount effect: a stored list, if any, replaces the entries. */
  function Load(s: State): (r: State)
    ensures r.storage == s.storage && r.text == s.text && r.mode == s.mode
    ensures r.isLoading == s.isLoading && r.expanded == s.expanded
    ensures StorageKey in s.storage ==> r.entries == s.storage[StorageKey]
    ensures StorageKey !in s.storage ==> r.entries == s.entries
  {
    if StorageKey in s.storage then s.(entries := s.storage[StorageKey]) else s
  }

  /** The page once the load effect has run on top of the given storage. */
  function Mount(storage: Storage): (s: State)
    ensures s.text == "" && s.mode == Sentence && !s.isLoading && s.expanded == map[]
    ensures s.storage == storage
    ensures s.entries == if StorageKey in storage then storage[StorageKey] else []
  {
    Load(Fresh(storage))
  }

  /** `saveEntries`: write the list under the key, then adopt it; `None`
      when the write throws, in which case nothing changed. */
  function SaveEntries(s: State, newEntries: seq<Entry>, writable: bool): (r: Option<State>)
    ensures r.Some? <==> writable
    ensures r.Some? ==> r.value.entries == newEntries
    ensures r.Some? ==> StorageKey in r.value.storage && r.value.storage[StorageKey] == newEntries
    ensures r.Some? ==> forall k :: k in s.storage && k != StorageKey ==>
                          k in r.value.storage && r.value.storage[k] == s.storage[k]
    ensures r.Some? ==> r.value.storage.Keys == s.storage.Keys + {StorageKey}
    ensures r.Some? ==> r.value.(entries := s.entries, storage := s.storage) == s
  {
    if writable then Some(s.(storage := s.storage[StorageKey := newEntries], entries := newEntries))
    else None
  }

  /** The submit control is enabled, and `handleSummarize` gets past its
      two guards, exactly when the input is not blank and no request is in
      flight. */
  function CanSubmit(s: State): (enabled: bool)
    ensures enabled <==> !AllWhitespace(s.text) && !s.isLoading
  {
    !IsBlank(s.text) && !s.isLoading
  }

  /** `handleSummarize` up to the `await`: both guards, then `isLoading := true`. */
  function Begin(s: State): (r: State)
    ensures IsBlank(s.text) ==> r == s
    ensures s.isLoading ==> r == s
    ensures CanSubmit(s) ==> r == s.(isLoading := true)
    ensures !CanSubmit(r)
  {
    if IsBlank(s.text) then s
    else if s.isLoading then s
    else s.(isLoading := true)
  }

  /** The entry a submit creates from the pre-submit text and mode. Its id
      spells the first clock reading and its timestamp is the second one;
      the two readings may differ. */
  function NewEntry(s: State, summary: string, env: Env): (e: Entry)
    ensures e.id == Decimal.NumberToString(env.idClock)
    ensures Decimal.ParseNumber(e.id) == env.idClock
    ensures e.timestamp == env.stampClock
    ensures e.originalText == s.text && e.summaryText == summary && e.summaryType == s.mode
  {
    Entry(Decimal.NumberToString(env.idClock), s.text, summary, s.mode, env.stampClock)
  }

  /** `handleSummarize` after the `await`: build the entry, prepend it,
      save, clear the input; any throw is caught and alerted; `finally`
      clears `isLoading` on every path. */
  function Finish(s: State, env: Env): (r: Step)
    ensures !r.state.isLoading
    ensures r.alerted <==> env.reply.None? || !env.storageWritable
    ensures r.alerted ==> r.state == s.(isLoading := false)
    ensures !r.alerted ==> |r.state.entries| == |s.entries| + 1 && r.state.entries[1..] == s.entries
    ensures !r.alerted ==> r.state.entries[0].originalText == s.text
    ensures !r.alerted ==> r.state.entries[0].summaryText == env.reply.value
    ensures !r.alerted ==> r.state.entries[0].summaryType == s.mode
    ensures !r.alerted ==> r.state.text == ""
    ensures !r.alerted ==> StorageKey in r.state.storage && r.state.storage[StorageKey] == r.state.entries
    ensures !r.alerted ==> r.state.entries[0] == NewEntry(s, env.reply.value, env)
    ensures !r.alerted ==> r.state.storage == s.storage[StorageKey := r.state.entries]
    ensures r.state.mode == s.mode && r.state.expanded == s.expanded
  {
    match env.reply
    case None => Step(s.(isLoading := false), true)
    case Some(summary) =>
      match SaveEntries(s, [NewEntry(s, summary, env)] + s.entries, env.storageWritable)
      case None => Step(s.(isLoading := false), true)
      case Some(saved) => Step(saved.(text := "", isLoading := false), false)
  }

  /** A whole click on the submit control, run to completion. */
  function Submit(s: State, env: Env): (r: Step)
    ensures !CanSubmit(s) ==> r == Step(s, false)
    ensures CanSubmit(s) ==> !r.state.isLoading && r.state.mode == s.mode && r.state.expanded == s.expanded
    ensures CanSubmit(s) && r.alerted ==> r.state == s
    ensures CanSubmit(s) ==> (r.alerted <==> env.reply.None? || !env.storageWritable)
    ensures CanSubmit(s) && !r.alerted ==>
              r.state.entries == [NewEntry(s, env.reply.value, env)] + s.entries
    ensures CanSubmit(s) && !r.alerted ==>
              r.state.text == "" && r.state.storage == s.storage[StorageKey := r.state.entries]
  {
    if CanSubmit(s) then Finish(Begin(s), env) else Step(s, false)
  }

  /** Whether the clear-history control is rendered: exactly when
      clicking it would change the list. */
  function ClearOffered(s: State): (offered: bool)
    ensures offered <==> ClearHistory(s).entries != s.entries
  {
    |s.entries| > 0
  }

  /** The clear-history handler: remove the stored record, empty the list. */
  function ClearHistory(s: State): (r: State)
    ensures r.entries == [] && StorageKey !in r.storage
    ensures forall k :: k in s.storage && k != StorageKey ==> k in r.storage && r.storage[k] == s.storage[k]
    ensures r.storage.Keys == s.storage.Keys - {StorageKey}
    ensures r.(entries := s.entries, storage := s.storage) == s
  {
    s.(storage := s.storage - {StorageKey}, entries := [])
  }

  /** `expandedEntries[id]` read as a condition: a missing key is `undefined`, hence false. */
  predicate IsExpanded(expanded: map<string, bool>, id: string) {
    id in expanded && expanded[id]
  }

  /** `toggleExpand(id)`: store the negation of the current effective flag. */
  function ToggleExpand(expanded: map<string, bool>, id: string): (r: map<string, bool>)
    ensures IsExpanded(r, id) <==> !IsExpanded(expanded, id)
    ensures forall other :: other != id ==> (IsExpanded(r, other) <==> IsExpanded(expanded, other))
    ensures r.Keys == expanded.Keys + {id}
    ensures forall k :: k in expanded && k != id ==> r[k] == expanded[k]
  {
    expanded[id := !IsExpanded(expanded, id)]
  }

  /** The show more/less button's click handler: only the flags change. */
  function Toggle(s: State, id: string): (r: State)
    ensures IsExpanded(r.expanded, id) <==> !IsExpanded(s.expanded, id)
    ensures forall other :: other != id ==> (IsExpanded(r.expanded, other) <==> IsExpanded(s.expanded, other))
    ensures r.(expanded := s.expanded) == s
  {
    s.(expanded := ToggleExpand(s.expanded, id))
  }

  /** Toggling twice restores every effective flag, and restores the map
      itself once the id has been toggled before. */
  lemma ToggleTwice(expanded: map<string, bool>, id: string)
    ensures forall k :: IsExpanded(ToggleExpand(ToggleExpand(expanded, id), id), k) <==> IsExpanded(expanded, k)
    ensures id in expanded ==> ToggleExpand(ToggleExpand(expanded, id), id) == expanded
  {
    var twice := ToggleExpand(ToggleExpand(expanded, id), id);
    if id in expanded {
      assert twice.Keys == expanded.Keys;
    }
  }

  /** The "Show more" / "Show less" control is rendered for an entry whose
      original text splits on line feeds into more than `LineLimit` pieces
      or is longer than `CharLimit`. */
  function NeedsShowMore(originalText: string): (r: bool)
    ensures r <==> Count(originalText, '\n') >= LineLimit || Utf16Length(originalText) > CharLimit
  {
    |Split(originalText, '\n')| > LineLimit || Utf16Length(originalText) > CharLimit
  }

  /** A text written as `lines` joined by line feeds needs the control
      exactly when it has more than `LineLimit` lines or is too long. */
  lemma ShowMoreCountsLines(lines: seq<string>)
    requires |lines| >= 1
    requires forall i :: 0 <= i < |lines| ==> '\n' !in lines[i]
    ensures NeedsShowMore(Join(lines, '\n')) <==> |lines| > LineLimit || Utf16Length(Join(lines, '\n')) > CharLimit
  {
    SplitJoin(lines, '\n');
  }

  /** The control's label, which follows the entry's effective flag. */
  function ToggleLabel(expanded: map<string, bool>, id: string): (caption: string)
    ensures caption == "Show less" <==> IsExpanded(expanded, id)
    ensures caption == "Show more" <==> !IsExpanded(expanded, id)
  {
    if IsExpanded(expanded, id) then "Show less" else "Show more"
  }

  /** Clicking the control flips its own label and no other entry's. */
  lemma ToggleFlipsOnlyItsLabel(expanded: map<string, bool>, id: string, other: string)
    ensures ToggleLabel(ToggleExpand(expanded, id), id) != ToggleLabel(expanded, id)
    ensures other != id ==> ToggleLabel(ToggleExpand(expanded, id), other) == ToggleLabel(expanded, other)
  {
  }

}
