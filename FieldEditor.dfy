/**
 * The base field editor of Content/GUI/FieldEditors/FieldEditor.cs: a widget that holds the
 * value it believes a tracked field to have and, once per tick, re-reads that field through an
 * optional getter unless it is being edited.
 *
 * The source's getter (`listenForUpdate`) and the engine state it reads are not visible here:
 * an editor records at construction whether a getter was supplied, and each tick receives what
 * the getter returned as `Some(result)`, or `None` when there is no getter. The callbacks
 * `OnRecieveNewValue` and `onValueChanged` are recorded in ghost logs of calls.
 */
module FieldEditors {
  import opened Wrappers

  /** One call of a callback: the argument it received and the editor's `value` at that moment. */
  datatype Call<A, V> = Call(arg: A, valueAtCall: V)

  /** What polling reads and writes: the editor's value and the calls so far to `OnRecieveNewValue`. */
  datatype Synced<T> = Synced(value: T, hooks: seq<Call<T, T>>)

  /**
   * The polling block at the head of the sealed `Update`: when the editor is not editing and a
   * getter was supplied, the new value is handed to the hook first and only then stored.
   */
  function Poll<T>(editing: bool, polled: Option<T>, s: Synced<T>): (r: Synced<T>)
    ensures editing || polled.None? ==> r == s
    ensures !editing && polled.Some? ==> r.value == polled.value
    ensures !editing && polled.Some? ==> r.hooks == s.hooks + [Call(polled.value, s.value)]
  {
    if !editing && polled.Some? then
      var newValue := polled.value;
      var hooked := s.hooks + [Call(newValue, s.value)];
      Synced(newValue, hooked)
    else
      s
  }

  /** Successive ticks of `Update` while `Editing` keeps the value `editing`. */
  function PollRun<T>(editing: bool, s: Synced<T>, polls: seq<Option<T>>): Synced<T>
    decreases |polls|
  {
    if polls == [] then s else PollRun(editing, Poll(editing, polls[0], s), polls[1..])
  }

  /**
   * No fight while editing, and no self-synchronisation without a getter: any number of ticks
   * leave both the value and the hook log as they were.
   */
  lemma {:induction false} PollRunFrozen<T>(editing: bool, s: Synced<T>, polls: seq<Option<T>>)
    requires editing || forall i :: 0 <= i < |polls| ==> polls[i].None?
    ensures PollRun(editing, s, polls) == s
  {
    if polls != [] {
      assert !editing ==> polls[0].None?;
      PollRunFrozen(editing, Poll(editing, polls[0], s), polls[1..]);
    }
  }

  /**
   * A plain editor (one that keeps the base `Editing`, always false) with a getter polls on
   * every tick: after the run its value is the last result, and the hook was called once per
   * tick, on top of the calls already logged.
   */
  lemma {:induction false} PlainEditorTracksGetter<T>(s: Synced<T>, polls: seq<Option<T>>)
    requires forall i :: 0 <= i < |polls| ==> polls[i].Some?
    ensures |PollRun(false, s, polls).hooks| == |s.hooks| + |polls|
    ensures PollRun(false, s, polls).hooks[..|s.hooks|] == s.hooks
    ensures polls != [] ==> PollRun(false, s, polls).value == polls[|polls| - 1].value
    decreases |polls|
  {
    if polls != [] {
      var s' := Poll(false, polls[0], s);
      PlainEditorTracksGetter(s', polls[1..]);
      var r := PollRun(false, s, polls);
      assert r.hooks[..|s.hooks|] == r.hooks[..|s'.hooks|][..|s.hooks|];
    }
  }

  /**
   * The hook call of tick `i` of a plain editor's run: it received that tick's getter result
   * while `value` still held the previous tick's result (or the value before the run).
   */
  lemma {:induction false} PlainEditorHookSeesOldValue<T>(s: Synced<T>, polls: seq<Option<T>>, i: nat)
    requires forall k :: 0 <= k < |polls| ==> polls[k].Some?
    requires i < |polls|
    ensures |PollRun(false, s, polls).hooks| == |s.hooks| + |polls|
    ensures PollRun(false, s, polls).hooks[|s.hooks| + i]
      == Call(polls[i].value, if i == 0 then s.value else polls[i - 1].value)
    decreases |polls|
  {
    PlainEditorTracksGetter(s, polls);
    var s' := Poll(false, polls[0], s);
    var r := PollRun(false, s, polls);
    if i == 0 {
      PlainEditorTracksGetter(s', polls[1..]);
      assert r.hooks[..|s'.hooks|][|s.hooks|] == s'.hooks[|s.hooks|];
    } else {
      PlainEditorHookSeesOldValue(s', polls[1..], i - 1);
      assert polls[1..][i - 1] == polls[i];
      assert i - 1 > 0 ==> polls[1..][i - 2] == polls[i - 1];
    }
  }

  /**
   * A field editor whose subclass keeps the base `Editing` (always false), the base
   * `OnRecieveNewValue` (does nothing) and the base `SafeUpdate` (does nothing).
   */
  class FieldEditor<T> {
    /** The label shown above the panel. */
    const name: string
    /** The hover text. */
    const description: string
    /** Whether a getter (`listenForUpdate`) was supplied. */
    const listens: bool
    /** The value the editor believes the tracked field to have. */
    var value: T
    /** Every call to `OnRecieveNewValue`. */
    ghost var hooks: seq<Call<T, T>>
    /** Every call to `onValueChanged`. */
    ghost var changed: seq<Call<T, T>>

    constructor (name: string, listens: bool, initialValue: T, description: string)
      ensures this.name == name && this.description == description && this.listens == listens
      ensures value == initialValue && !Editing()
      ensures hooks == [] && changed == []
    {
      this.name := name;
      this.listens := listens;
      value := initialValue;
      this.description := description;
      hooks := [];
      changed := [];
    }

    /** The base editor is never editing, so polling is never suspended. */
    predicate Editing()
      ensures !Editing()
    {
      false
    }

    ghost function Observed(): Synced<T>
      reads this
    {
      Synced(value, hooks)
    }

    /** The hook runs before the overwrite, so it sees the old `value`. */
    method OnRecieveNewValue(newValue: T)
      modifies this`hooks
      ensures hooks == old(hooks) + [Call(newValue, value)]
    {
      hooks := hooks + [Call(newValue, value)];
    }

    /** One tick: poll the getter unless editing, then `SafeUpdate`. It never calls `onValueChanged`. */
    method Update(polled: Option<T>)
      requires polled.Some? <==> listens
      modifies this`value, this`hooks
      ensures Observed() == Poll(false, polled, old(Observed()))
      ensures changed == old(changed)
    {
      if !Editing() && polled.Some? {
        var newValue := polled.value;
        OnRecieveNewValue(newValue);
        value := newValue;
      }
      SafeUpdate();
    }

    method SafeUpdate()
    {
    }
  }
}
