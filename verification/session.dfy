/** Sequences of user events on the history page, and the invariant that
    ties the in-memory list to the stored one. */
module Session {

  import opened Maybe
  import opened Text
  import Decimal
  import opened Gateway
  import opened Controller

  /** One user event: typing, choosing a mode, clicking submit (with what
      the world answers), clicking clear history (which does something
      only where the control is rendered), clicking show more/less. */
  datatype Action =
    | Edit(newText: string)
    | Choose(newMode: Mode)
    | Click(env: Env)
    | ClearClick
    | ToggleClick(id: string)

  /** The page's reaction to one event. Typing and choosing a mode set
      only their own field; a clear click changes the list only where the
      control is rendered; a toggle click changes only the expand flags. */
  function Apply(s: State, a: Action): (r: State)
    ensures a.Edit? ==> r.text == a.newText && r.(text := s.text) == s
    ensures a.Choose? ==> r.mode == a.newMode && r.(mode := s.mode) == s
    ensures a.ClearClick? && !ClearOffered(s) ==> r == s
    ensures a.ClearClick? && ClearOffered(s) ==> r.entries == [] && StorageKey !in r.storage
    ensures a.ClearClick? && ClearOffered(s) ==>
              r.(entries := s.entries, storage := s.storage) == s && r.storage.Keys == s.storage.Keys - {StorageKey}
    ensures a.ToggleClick? ==> r.(expanded := s.expanded) == s
    ensures a.ToggleClick? ==> (IsExpanded(r.expanded, a.id) <==> !IsExpanded(s.expanded, a.id))
    ensures a.ToggleClick? ==>
              forall other :: other != a.id ==> (IsExpanded(r.expanded, other) <==> IsExpanded(s.expanded, other))
  {
    match a
    case Edit(t) => s.(text := t)
    case Choose(m) => s.(mode := m)
    case Click(env) => Submit(s, env).state
    case ClearClick => if ClearOffered(s) then ClearHistory(s) else s
    case ToggleClick(id) => Toggle(s, id)
  }

  function Run(s: State, actions: seq<Action>): State
    decreases |actions|
  {
    if |actions| == 0 then s else Run(Apply(s, actions[0]), actions[1..])
  }

  /** The list on screen is the stored list, or empty when nothing is
      stored, and no request is in flight between events. */
  predicate Synced(s: State) {
    && !s.isLoading
    && s.entries == (if StorageKey in s.storage then s.storage[StorageKey] else [])
  }

  lemma MountSynced(storage: Storage)
    ensures Synced(Mount(storage))
  {
  }

  lemma ApplyKeepsSynced(s: State, a: Action)
    requires Synced(s)
    ensures Synced(Apply(s, a))
  {
  }

  lemma {:induction false} RunKeepsSynced(s: State, actions: seq<Action>)
    requires Synced(s)
    ensures Synced(Run(s, actions))
    decreases |actions|
  {
    if |actions| > 0 {
      ApplyKeepsSynced(s, actions[0]);
      RunKeepsSynced(Apply(s, actions[0]), actions[1..]);
    }
  }

  /** Reloading the page after any sequence of events shows exactly the
      list that was on screen, in the same order. */
  lemma ReloadShowsSameList(storage: Storage, actions: seq<Action>)
    ensures Mount(Run(Mount(storage), actions).storage).entries == Run(Mount(storage), actions).entries
  {
    MountSynced(storage);
    RunKeepsSynced(Mount(storage), actions);
  }

  /** Load after save gives back the saved list. */
  lemma LoadAfterSave(s: State, newEntries: seq<Entry>)
    ensures Mount(SaveEntries(s, newEntries, true).value.storage).entries == newEntries
  {
  }

  /** After clearing, a reload shows an empty history. */
  lemma LoadAfterClear(s: State)
    ensures Mount(ClearHistory(s).storage).entries == []
  {
  }

  /** A click with empty or whitespace-only input does nothing. */
  lemma BlankClickIgnored(s: State, env: Env)
    requires AllWhitespace(s.text)
    ensures Submit(s, env) == Step(s, false)
  {
  }

  /** The clear-history control is rendered only over a non-empty list;
      over an empty one the handler would change nothing on screen and
      would keep the list in step with storage. */
  lemma ClearNotOfferedChangesNothing(s: State)
    requires Synced(s) && !ClearOffered(s)
    ensures ClearHistory(s).entries == s.entries
    ensures Synced(ClearHistory(s))
  {
  }

  /** A second click while the first request is in flight does nothing. */
  lemma ClickWhileLoadingIgnored(s: State, env: Env)
    requires !AllWhitespace(s.text) && !s.isLoading
    ensures Begin(s).isLoading
    ensures Submit(Begin(s), env) == Step(Begin(s), false)
  {
  }

  /** Each click adds at most one entry, and never removes or reorders one. */
  lemma ClickAddsAtMostOne(s: State, env: Env)
    ensures var r := Submit(s, env).state;
      r.entries == s.entries || (|r.entries| == |s.entries| + 1 && r.entries[1..] == s.entries)
  {
  }

  /** When the reply is the gateway's answer, the entry a successful click
      creates carries a summary with no surrounding whitespace, and a
      non-empty one whenever the provider call failed. */
  lemma ClickThroughGateway(s: State, upstream: string -> Outcome, idClock: int, stampClock: int)
    requires !AllWhitespace(s.text) && !s.isLoading
    ensures var summary := Summarize(s.text, s.mode, upstream);
      var r := Submit(s, Env(Some(summary), idClock, stampClock, true)).state;
      && r.entries[0].summaryText == summary
      && NoOuterWhitespace(r.entries[0].summaryText)
      && (upstream(Prompt(s.text, s.mode)).Err? ==> |r.entries[0].summaryText| > 0)
      && r.entries[0].id == Decimal.NumberToString(idClock)
  {
  }

  /** Entries created at different readings of the id clock get different ids. */
  lemma IdsFollowClock(s: State, t: State, a: string, b: string, e1: Env, e2: Env)
    requires e1.idClock != e2.idClock
    ensures NewEntry(s, a, e1).id != NewEntry(t, b, e2).id
  {
    Decimal.NumberToStringInjective(e1.idClock, e2.idClock);
  }

}
