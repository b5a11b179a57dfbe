/** The web UI's deployment form (the `currentDeployment` record of the
    deployment context) and the handlers the experiment pages share: picking a
    SUT, the variant and workload checkboxes with their "select all" box, the
    iterations field and the deploy-only box.  Each handler computes the next
    form from the current one. */
module DeploymentForm {
  import opened Wrappers

  /** The form: `sut` is null until one is picked. */
  datatype Form = Form(sut: Option<string>, variants: seq<string>, workloads: seq<string>,
                       iterations: int, deployOnly: bool)

  const Initial: Form := Form(None, [], [], 1, false)

  /** A SUT as `/api/suts` lists it: its name and the names of its variants
      and workloads. */
  datatype Sut = Sut(name: string, variants: seq<string>, workloads: seq<string>)

  /** JavaScript's `!!currentDeployment.sut`: null and "" are falsy. */
  predicate SutChosen(f: Form) {
    f.sut.Some? && f.sut.value != []
  }

  /** The SUTs whose name equals the selection; none while it is null. */
  function Matching(suts: seq<Sut>, sel: Option<string>): (r: seq<Sut>)
    ensures forall s :: s in r <==> s in suts && sel == Some(s.name)
  {
    if suts == [] then []
    else (if sel == Some(suts[0].name) then [suts[0]] else []) + Matching(suts[1..], sel)
  }

  /** `flatMap` over the matching SUTs. */
  function Flatten(groups: seq<seq<string>>): (r: seq<string>)
    ensures forall x :: x in r <==> exists i :: 0 <= i < |groups| && x in groups[i]
  {
    if groups == [] then []
    else
      var rest := Flatten(groups[1..]);
      assert forall i :: 1 <= i < |groups| ==> groups[i] == groups[1..][i - 1];
      groups[0] + rest
  }

  /** The variant options: every variant of every SUT named as the selection. */
  function VariantOptions(suts: seq<Sut>, sel: Option<string>): (r: seq<string>)
    ensures forall v :: v in r <==> exists s :: s in suts && sel == Some(s.name) && v in s.variants
  {
    var m := Matching(suts, sel);
    var groups := seq(|m|, i requires 0 <= i < |m| => m[i].variants);
    var r := Flatten(groups);
    forall v | v in r
      ensures exists s :: s in suts && sel == Some(s.name) && v in s.variants
    {
      var i :| 0 <= i < |groups| && v in groups[i];
      assert m[i] in m;
    }
    forall v | exists s :: s in suts && sel == Some(s.name) && v in s.variants
      ensures v in r
    {
      var s :| s in suts && sel == Some(s.name) && v in s.variants;
      assert s in m;
      var i :| 0 <= i < |m| && m[i] == s;
      assert v in groups[i];
    }
    r
  }

  /** The workload options, likewise. */
  function WorkloadOptions(suts: seq<Sut>, sel: Option<string>): (r: seq<string>)
    ensures forall w :: w in r <==> exists s :: s in suts && sel == Some(s.name) && w in s.workloads
  {
    var m := Matching(suts, sel);
    var groups := seq(|m|, i requires 0 <= i < |m| => m[i].workloads);
    var r := Flatten(groups);
    forall w | w in r
      ensures exists s :: s in suts && sel == Some(s.name) && w in s.workloads
    {
      var i :| 0 <= i < |groups| && w in groups[i];
      assert m[i] in m;
    }
    forall w | exists s :: s in suts && sel == Some(s.name) && w in s.workloads
      ensures w in r
    {
      var s :| s in suts && sel == Some(s.name) && w in s.workloads;
      assert s in m;
      var i :| 0 <= i < |m| && m[i] == s;
      assert w in groups[i];
    }
    r
  }

  /** Without a selected SUT there is nothing to choose from. */
  lemma NoOptionsWithoutSut(suts: seq<Sut>)
    ensures VariantOptions(suts, None) == [] && WorkloadOptions(suts, None) == []
  {
  }

  /** The variant "select all" box: checked when there are options and as
      many variants are selected as there are options. */
  predicate AllVariantsSelected(f: Form, options: seq<string>) {
    |options| > 0 && |f.variants| == |options|
  }

  /** The box is indeterminate when some, but not all, are selected. */
  predicate SomeVariantsSelected(f: Form, options: seq<string>) {
    |f.variants| > 0 && !AllVariantsSelected(f, options)
  }

  /** The workload box has no guard on the option count. */
  predicate AllWorkloadsSelected(f: Form, options: seq<string>) {
    |f.workloads| == |options|
  }

  predicate SomeWorkloadsSelected(f: Form, options: seq<string>) {
    |f.workloads| > 0 && !AllWorkloadsSelected(f, options)
  }

  /** The variant box is in exactly one of its three states: checked,
      indeterminate, or clear with nothing selected. */
  lemma VariantBoxTriState(f: Form, options: seq<string>)
    ensures !(AllVariantsSelected(f, options) && SomeVariantsSelected(f, options))
    ensures !AllVariantsSelected(f, options) && !SomeVariantsSelected(f, options) <==> f.variants == []
  {
  }

  /** With no workload options and no workloads, the workload box shows as
      checked: zero of zero counts as all. */
  lemma NoWorkloadOptionsShowsChecked(f: Form)
    requires f.workloads == []
    ensures AllWorkloadsSelected(f, []) && !SomeWorkloadsSelected(f, [])
  {
  }

  /** Choosing a SUT: the new name, no variants; the workloads are kept. */
  function ChangeSut(f: Form, name: string): (r: Form)
    ensures r.sut == Some(name) && r.variants == []
    ensures r.workloads == f.workloads && r.iterations == f.iterations && r.deployOnly == f.deployOnly
  {
    f.(sut := Some(name), variants := [])
  }

  /** After a SUT change the variant box is clear, whatever the new options. */
  lemma ChangeSutClearsVariantBox(f: Form, name: string, options: seq<string>)
    ensures !AllVariantsSelected(ChangeSut(f, name), options)
    ensures !SomeVariantsSelected(ChangeSut(f, name), options)
  {
  }

  /** The variant "select all" box: checking it selects every option name,
      clearing it selects none. */
  function SelectAllVariants(f: Form, options: seq<string>, checked: bool): (r: Form)
    ensures r.variants == (if checked then options else [])
    ensures r == f.(variants := r.variants)
  {
    f.(variants := if checked then options else [])
  }

  function SelectAllWorkloads(f: Form, options: seq<string>, checked: bool): (r: Form)
    ensures r.workloads == (if checked then options else [])
    ensures r == f.(workloads := r.workloads)
  {
    f.(workloads := if checked then options else [])
  }

  /** Checking "select all" shows the box checked exactly when there are
      options; clearing it shows the box clear. */
  lemma SelectAllShowsBox(f: Form, options: seq<string>, checked: bool)
    ensures checked ==> (AllVariantsSelected(SelectAllVariants(f, options, checked), options) <==> options != [])
    ensures checked ==> AllWorkloadsSelected(SelectAllWorkloads(f, options, checked), options)
    ensures !checked ==> !AllVariantsSelected(SelectAllVariants(f, options, checked), options) &&
                         !SomeVariantsSelected(SelectAllVariants(f, options, checked), options)
  {
  }

  /** `list.filter(n => n !== x)`. */
  function Without<T(==,!new)>(s: seq<T>, x: T): (r: seq<T>)
    ensures forall y :: y in r <==> y in s && y != x
    ensures x !in s ==> r == s
    ensures |r| <= |s|
  {
    if s == [] then []
    else (if s[0] == x then [] else [s[0]]) + Without(s[1..], x)
  }

  /** One checkbox: a selected name is removed (every copy of it), any other
      is appended. */
  function Toggle<T(==,!new)>(s: seq<T>, x: T): (r: seq<T>)
    ensures x in r <==> x !in s
    ensures forall y :: y != x ==> (y in r <==> y in s)
  {
    if x in s then Without(s, x) else s + [x]
  }

  /** Removing a name appended to a list without it gives the list back. */
  lemma {:induction false} WithoutAppended<T(!new)>(s: seq<T>, x: T)
    requires x !in s
    ensures Without(s + [x], x) == s
  {
    if s == [] {
      assert Without([x], x) == [] + Without([], x);
    } else {
      assert (s + [x])[1..] == s[1..] + [x];
      WithoutAppended(s[1..], x);
      assert [s[0]] + s[1..] == s;
    }
  }

  /** Ticking and unticking a box that was clear leaves the selection as it
      was, order included. */
  lemma ToggleTwiceRestores<T(!new)>(s: seq<T>, x: T)
    requires x !in s
    ensures Toggle(Toggle(s, x), x) == s
  {
    assert x in s + [x];
    WithoutAppended(s, x);
  }

  function ToggleVariant(f: Form, name: string): (r: Form)
    ensures (name in r.variants <==> name !in f.variants)
    ensures r == f.(variants := r.variants)
    ensures forall y :: y != name ==> (y in r.variants <==> y in f.variants)
  {
    f.(variants := Toggle(f.variants, name))
  }

  function ToggleWorkload(f: Form, name: string): (r: Form)
    ensures (name in r.workloads <==> name !in f.workloads)
    ensures r == f.(workloads := r.workloads)
    ensures forall y :: y != name ==> (y in r.workloads <==> y in f.workloads)
  {
    f.(workloads := Toggle(f.workloads, name))
  }

  /** `parseInt(value) || 1`: `parsed` is None when the text is not a number
      (NaN); NaN and 0 both become 1, any other number is kept. */
  function Iterations(parsed: Option<int>): (r: int)
    ensures r != 0
    ensures r == 1 || (parsed.Some? && r == parsed.value)
    ensures parsed.Some? && parsed.value != 0 ==> r == parsed.value
  {
    if parsed.None? || parsed.value == 0 then 1 else parsed.value
  }

  function SetIterations(f: Form, parsed: Option<int>): (r: Form)
    ensures r.iterations != 0 && r == f.(iterations := r.iterations)
    ensures r.iterations == 1 || (parsed.Some? && r.iterations == parsed.value)
  {
    f.(iterations := Iterations(parsed))
  }

  /** The deploy-only box of the parameter panel: checking it clears the
      workloads, clearing it keeps them. */
  function SetDeployOnlyClearing(f: Form, checked: bool): (r: Form)
    ensures r.deployOnly == checked
    ensures r.workloads == (if checked then [] else f.workloads)
    ensures r == f.(deployOnly := checked, workloads := r.workloads)
  {
    f.(deployOnly := checked, workloads := if checked then [] else f.workloads)
  }

  /** The deploy-only box of the experiment page: only the flag changes. */
  function SetDeployOnly(f: Form, checked: bool): (r: Form)
    ensures r.deployOnly == checked && r == f.(deployOnly := checked)
  {
    f.(deployOnly := checked)
  }

  /** Checking deploy-only on the parameter panel leaves no workload
      selected; unchecking it again does not bring them back. */
  lemma DeployOnlyForgetsWorkloads(f: Form)
    ensures SetDeployOnlyClearing(f, true).workloads == []
    ensures SetDeployOnlyClearing(SetDeployOnlyClearing(f, true), false).workloads == []
  {
  }
}
