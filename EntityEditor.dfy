/**
 * The entity editor of Content/GUI/FieldEditors/EntityEditor.cs: a field editor whose value is a
 * world entity (or null), chosen by clicking on the world. Clicking its selector button enters
 * selecting mode; while selecting, the editor is editing and does not poll its getter; each tick a
 * right click cancels, and a left click asks the abstract `OnSelect` hit-test for an entity and,
 * on a hit, commits it.
 *
 * The engine's `Main.mouseLeft`, `Main.mouseRight` and the concrete hit-test are per-tick inputs.
 * The null entity is `None`; the getter's result for an entity editor is therefore an
 * `Option<Option<E>>`: `None` when there is no getter, `Some(None)` when it returned null.
 */
module EntityEditors {
  import opened Wrappers
  import opened FieldEditors

  /** What the engine supplies to one tick of `Update`. */
  datatype Input<E> = Input(polled: Option<Option<E>>, mouseLeft: bool, mouseRight: bool, hit: Option<E>)

  /**
   * The whole state of an entity editor: its value, the selecting flag, and the logs of calls to
   * `OnRecieveNewValue` and to `onValueChanged`, and the number of calls to `OnSelect`.
   */
  datatype EntityState<E> = EntityState(
    value: Option<E>,
    selecting: bool,
    hooks: seq<Call<Option<E>, Option<E>>>,
    changed: seq<Call<E, Option<E>>>,
    selects: nat)

  /** The editor is editing exactly while it is selecting. */
  predicate IsEditing<E>(s: EntityState<E>) {
    s.selecting
  }

  /** Whether a tick in this state with these inputs commits a selected entity. */
  predicate Commits<E>(s: EntityState<E>, mouseLeft: bool, mouseRight: bool, hit: Option<E>) {
    s.selecting && mouseLeft && !mouseRight && hit.Some?
  }

  /** `SafeUpdate`: cancel on a right click; on a left click while selecting, hit-test and commit a hit. */
  function SafeStep<E>(s: EntityState<E>, mouseLeft: bool, mouseRight: bool, hit: Option<E>): (r: EntityState<E>)
    ensures r.hooks == s.hooks
    ensures mouseRight ==> !r.selecting && r.value == s.value && r.changed == s.changed && r.selects == s.selects
    ensures !s.selecting ==> r == s
    ensures !mouseLeft && !mouseRight ==> r == s
    ensures s.selecting && mouseLeft && !mouseRight && hit.None? ==> r == s.(selects := s.selects + 1)
    ensures Commits(s, mouseLeft, mouseRight, hit) ==>
      r == s.(value := hit, selecting := false,
              changed := s.changed + [Call(hit.value, s.value)], selects := s.selects + 1)
  {
    var afterCancel := if mouseRight then s.(selecting := false) else s;
    if afterCancel.selecting && mouseLeft then
      var asked := afterCancel.(selects := afterCancel.selects + 1);
      match hit
      case None => asked
      case Some(selected) =>
        var notified := asked.(changed := asked.changed + [Call(selected, asked.value)]);
        notified.(value := hit).(selecting := false)
    else
      afterCancel
  }

  /** One tick of the sealed `Update`: the polling rule of the base editor, then `SafeStep`. */
  function Tick<E>(s: EntityState<E>, input: Input<E>): (r: EntityState<E>)
    ensures s.selecting ==> r == SafeStep(s, input.mouseLeft, input.mouseRight, input.hit)
    ensures !s.selecting ==>
      r == s.(value := if input.polled.Some? then input.polled.value else s.value,
              hooks := s.hooks + if input.polled.Some? then [Call(input.polled.value, s.value)] else [])
    ensures r.changed == if Commits(s, input.mouseLeft, input.mouseRight, input.hit)
                         then s.changed + [Call(input.hit.value, s.value)] else s.changed
  {
    var polled := Poll(IsEditing(s), input.polled, Synced(s.value, s.hooks));
    SafeStep(s.(value := polled.value, hooks := polled.hooks), input.mouseLeft, input.mouseRight, input.hit)
  }

  /** What can happen to an entity editor: an engine tick, or a click on its selector button. */
  datatype Event<E> = Frame(input: Input<E>) | SelectorClick

  /** `SelectorButton.Click` sets the parent's `selecting` and nothing else. */
  function StartSelecting<E>(s: EntityState<E>): (r: EntityState<E>)
    ensures r.selecting && IsEditing(r)
    ensures r.value == s.value && r.hooks == s.hooks && r.changed == s.changed && r.selects == s.selects
  {
    s.(selecting := true)
  }

  function Step<E>(s: EntityState<E>, ev: Event<E>): EntityState<E> {
    match ev
    case Frame(input) => Tick(s, input)
    case SelectorClick => StartSelecting(s)
  }

  function Run<E>(s: EntityState<E>, evs: seq<Event<E>>): EntityState<E>
    decreases |evs|
  {
    if evs == [] then s else Run(Step(s, evs[0]), evs[1..])
  }

  /** The number of selector-button clicks in a sequence of events. */
  function Clicks<E>(evs: seq<Event<E>>): nat
    decreases |evs|
  {
    if evs == [] then 0 else (if evs[0].SelectorClick? then 1 else 0) + Clicks(evs[1..])
  }

  /** A frame that neither cancels nor lands a hit: it cannot end selecting mode. */
  predicate Undecided<E>(ev: Event<E>) {
    ev.Frame? ==> !ev.input.mouseRight && !(ev.input.mouseLeft && ev.input.hit.Some?)
  }

  /**
   * While selecting, frames that neither cancel nor hit (and further clicks) keep the editor
   * selecting, leave its value untouched by the getter, and fire no callback.
   */
  lemma {:induction false} SelectingHoldsValue<E>(s: EntityState<E>, evs: seq<Event<E>>)
    requires s.selecting
    requires forall i :: 0 <= i < |evs| ==> Undecided(evs[i])
    ensures Run(s, evs).selecting
    ensures Run(s, evs).value == s.value
    ensures Run(s, evs).hooks == s.hooks
    ensures Run(s, evs).changed == s.changed
    decreases |evs|
  {
    if evs != [] {
      assert Undecided(evs[0]);
      var s' := Step(s, evs[0]);
      assert s'.selecting && s'.value == s.value && s'.hooks == s.hooks && s'.changed == s.changed;
      assert forall i :: 0 <= i < |evs[1..]| ==> evs[1..][i] == evs[i + 1];
      SelectingHoldsValue(s', evs[1..]);
    }
  }

  /**
   * `onValueChanged` fires only on leaving selecting mode, and selecting mode is entered only by
   * a click: the calls made during a run, plus one if the run ends selecting, never exceed the
   * clicks in it, plus one if it began selecting.
   */
  lemma {:induction false} CommitsNeedClicks<E>(s: EntityState<E>, evs: seq<Event<E>>)
    ensures |Run(s, evs).changed| >= |s.changed|
    ensures |Run(s, evs).changed| - |s.changed| + (if Run(s, evs).selecting then 1 else 0)
      <= Clicks(evs) + (if s.selecting then 1 else 0)
    decreases |evs|
  {
    if evs != [] {
      CommitsNeedClicks(Step(s, evs[0]), evs[1..]);
    }
  }

  /** A new editor, not selecting, calls `onValueChanged` at most once per click of its button. */
  lemma NewEditorCommitsAtMostPerClick<E>(value: Option<E>, evs: seq<Event<E>>)
    ensures |Run(EntityState(value, false, [], [], 0), evs).changed| <= Clicks(evs)
  {
    CommitsNeedClicks(EntityState(value, false, [], [], 0), evs);
  }

  /**
   * The values a run actually offers the editor: a getter result on a tick that begins not
   * selecting (so it polls), and the hit of a tick that commits.
   */
  function Offered<E(==)>(s: EntityState<E>, evs: seq<Event<E>>): set<Option<E>>
    decreases |evs|
  {
    if evs == [] then {}
    else
      var here :=
        match evs[0]
        case SelectorClick => {}
        case Frame(input) =>
          (if !s.selecting && input.polled.Some? then {input.polled.value} else {})
          + (if Commits(s, input.mouseLeft, input.mouseRight, input.hit) then {input.hit} else {});
      here + Offered(Step(s, evs[0]), evs[1..])
  }

  /** The editor's value only ever comes from the value it had, a getter result it polled, or a committed hit. */
  lemma {:induction false} ValueProvenance<E>(s: EntityState<E>, evs: seq<Event<E>>)
    ensures Run(s, evs).value == s.value || Run(s, evs).value in Offered(s, evs)
    decreases |evs|
  {
    if evs != [] {
      ValueProvenance(Step(s, evs[0]), evs[1..]);
    }
  }

  /**
   * The selector button that the entity editor's constructor appends as a child; its parent is
   * that editor.
   */
  class SelectorButton<E> {
    const parent: EntityEditor<E>

    constructor (parent: EntityEditor<E>)
      ensures this.parent == parent
    {
      this.parent := parent;
    }

    /** Enter selecting mode. The message shown to the user is not modelled. */
    method Click()
      modifies parent`selecting
      ensures parent.State() == StartSelecting(old(parent.State()))
    {
      parent.selecting := true;
    }
  }

  class EntityEditor<E> {
    const name: string
    const description: string
    /** Whether a getter (`listenForUpdates`) was supplied. */
    const listens: bool
    var value: Option<E>
    var selecting: bool
    /** The child button that starts a selection. */
    var selector: SelectorButton?<E>
    /** Every call to `OnRecieveNewValue`. */
    ghost var hooks: seq<Call<Option<E>, Option<E>>>
    /** Every call to `onValueChanged`. */
    ghost var changed: seq<Call<E, Option<E>>>
    /** The number of calls to `OnSelect`. */
    ghost var selects: nat

    constructor (name: string, listens: bool, initialValue: Option<E>, description: string)
      ensures this.name == name && this.description == description && this.listens == listens
      ensures State() == EntityState(initialValue, false, [], [], 0) && !Editing()
      ensures selector != null && fresh(selector) && selector.parent == this
    {
      this.name := name;
      this.listens := listens;
      value := initialValue;
      this.description := description;
      selecting := false;
      hooks := [];
      changed := [];
      selects := 0;
      new;
      selector := new SelectorButton(this);
    }

    ghost function State(): EntityState<E>
      reads this
    {
      EntityState(value, selecting, hooks, changed, selects)
    }

    /** The `Editing` override. */
    predicate Editing()
      reads this
      ensures Editing() == IsEditing(State())
    {
      selecting
    }

    /** The base hook, inherited: it runs before the overwrite, so it sees the old `value`. */
    method OnRecieveNewValue(newValue: Option<E>)
      modifies this`hooks
      ensures hooks == old(hooks) + [Call(newValue, value)]
    {
      hooks := hooks + [Call(newValue, value)];
    }

    /** The abstract world hit-test; `hit` is what the concrete editor finds under the pointer. */
    method OnSelect(hit: Option<E>) returns (selected: Option<E>)
      modifies this`selects
      ensures selected == hit && selects == old(selects) + 1
    {
      selects := selects + 1;
      selected := hit;
    }

    method SafeUpdate(mouseLeft: bool, mouseRight: bool, hit: Option<E>)
      modifies this`value, this`selecting, this`changed, this`selects
      ensures State() == SafeStep(old(State()), mouseLeft, mouseRight, hit)
    {
      if mouseRight {
        selecting := false;
      }
      if selecting && mouseLeft {
        var selected := OnSelect(hit);
        if selected.Some? {
          changed := changed + [Call(selected.value, value)];
          value := selected;
          selecting := false;
        }
      }
    }

    /** The sealed `Update` of the base editor, with this editor's `Editing` and `SafeUpdate`. */
    method Update(input: Input<E>)
      requires input.polled.Some? <==> listens
      modifies this`value, this`selecting, this`hooks, this`changed, this`selects
      ensures State() == Tick(old(State()), input)
    {
      if !Editing() && input.polled.Some? {
        var newValue := input.polled.value;
        OnRecieveNewValue(newValue);
        value := newValue;
      }
      SafeUpdate(input.mouseLeft, input.mouseRight, input.hit);
    }
  }

  /** Select mode, a miss, then a hit: the hit is committed once and selecting mode ends. */
  method SelectionScenario<E>(e: E)
  {
    var editor := new EntityEditor<E>("Target", false, None, "");
    editor.selector.Click();
    assert editor.selecting;
    editor.Update(Input(None, true, false, None));
    assert editor.selecting && editor.value == None && editor.changed == [];
    editor.Update(Input(None, true, false, Some(e)));
    assert !editor.selecting && editor.value == Some(e) && editor.changed == [Call(e, None)];
    editor.selector.Click();
    editor.Update(Input(None, true, true, Some(e)));
    assert !editor.selecting && editor.changed == [Call(e, None)];
  }
}
