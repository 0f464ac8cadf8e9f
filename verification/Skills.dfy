/**
 Which skills an agent has: the catalog's defaults and the user's selection,
 computed by the broker for display and by agent-sync for the agent, and the
 chat commands that change the selection.
 */
module Skills {
  import opened Wrappers
  import opened StringOrder

  datatype Skill = Skill(name: string, required: bool, defaultOn: bool)

  type Catalog = seq<Skill>

  datatype Selection = Selection(disabled: seq<string>, enabled: seq<string>)

  predicate Distinct(c: Catalog) {
    forall i, j | 0 <= i < j < |c| :: c[i].name != c[j].name
  }

  /** One skill under a selection. */
  predicate On(s: Skill, sel: Selection) {
    s.required || (if s.defaultOn then s.name !in sel.disabled else s.name in sel.enabled)
  }

  // ---- the two implementations of the rule ----

  /** The first skill of that name. */
  function Find(c: Catalog, name: string): (r: Option<Skill>)
    ensures r.Some? ==> r.value in c && r.value.name == name
    ensures r.None? ==> forall s | s in c :: s.name != name
  {
    if |c| == 0 then None else if c[0].name == name then Some(c[0]) else Find(c[1..], name)
  }

  lemma {:induction false} FindOnly(c: Catalog, i: nat)
    requires Distinct(c) && i < |c|
    ensures Find(c, c[i].name) == Some(c[i])
  {
    if i > 0 {
      FindOnly(c[1..], i - 1);
    }
  }

  /** The last skill of that name. */
  function FindLast(c: Catalog, name: string): (r: Option<Skill>)
    ensures r.Some? <==> exists s :: s in c && s.name == name
    ensures r.Some? ==> r.value in c && r.value.name == name
  {
    if |c| == 0 then None else
    var s := c[|c| - 1];
    assert forall x | x in c :: x in c[..|c| - 1] || x == s;
    if s.name == name then Some(s) else FindLast(c[..|c| - 1], name)
  }

  /** The broker's table of skills. If a name is listed twice, the last entry
      decides. */
  method Enabled(c: Catalog, sel: Selection) returns (on: map<string, bool>)
    ensures forall n :: n in on <==> FindLast(c, n).Some?
    ensures forall n | n in on :: on[n] <==> On(FindLast(c, n).value, sel)
  {
    on := map[];
    for k := 0 to |c|
      invariant forall n :: n in on <==> FindLast(c[..k], n).Some?
      invariant forall n | n in on :: on[n] <==> On(FindLast(c[..k], n).value, sel)
    {
      var s := c[k];
      assert c[..k + 1][..k] == c[..k];
      if s.required {
        on := on[s.name := true];
      } else if s.defaultOn {
        on := on[s.name := s.name !in sel.disabled];
      } else {
        on := on[s.name := s.name in sel.enabled];
      }
    }
    assert c[..|c|] == c;
  }

  /** The names of the entries that are on, in the catalog's order. */
  function OnNames(c: Catalog, sel: Selection): (r: seq<string>)
    ensures forall n :: n in r <==> exists s :: s in c && s.name == n && On(s, sel)
  {
    if |c| == 0 then [] else
    var s := c[|c| - 1];
    assert forall x | x in c :: x in c[..|c| - 1] || x == s;
    OnNames(c[..|c| - 1], sel) + if On(s, sel) then [s.name] else []
  }

  /** What is on keeps its place; what is off goes. */
  lemma {:induction false} OnNamesKeep(before: Catalog, s: Skill, after: Catalog, sel: Selection)
    ensures OnNames(before + [s] + after, sel) ==
            OnNames(before, sel) + (if On(s, sel) then [s.name] else []) + OnNames(after, sel)
    decreases |after|
  {
    var all := before + [s] + after;
    if |after| == 0 {
      assert all == before + [s] && all[..|before|] == before;
    } else {
      var n := |after| - 1;
      assert all[..|all| - 1] == before + [s] + after[..n];
      OnNamesKeep(before, s, after[..n], sel);
    }
  }

  /** The skills agent-sync copies for the agent. */
  method EnabledSkills(index: Catalog, sel: Selection) returns (out: seq<string>)
    ensures out == OnNames(index, sel)
    ensures forall n :: n in out <==> exists s :: s in index && s.name == n && On(s, sel)
  {
    out := [];
    for k := 0 to |index|
      invariant out == OnNames(index[..k], sel)
    {
      var s := index[k];
      assert index[..k + 1][..k] == index[..k];
      if s.required {
        out := out + [s.name];
      } else if s.defaultOn && s.name !in sel.disabled {
        out := out + [s.name];
      } else if !s.defaultOn && s.name in sel.enabled {
        out := out + [s.name];
      }
    }
    assert index[..|index|] == index;
  }

  lemma {:induction false} FindLastIs(c: Catalog, i: nat)
    requires i < |c| && forall j | i < j < |c| :: c[j].name != c[i].name
    ensures FindLast(c, c[i].name) == Some(c[i])
  {
    if i < |c| - 1 {
      FindLastIs(c[..|c| - 1], i);
    }
  }

  /** The broker shows the skill as on. */
  predicate ShownOn(c: Catalog, sel: Selection, name: string) {
    FindLast(c, name).Some? && On(FindLast(c, name).value, sel)
  }

  /** With distinct names the broker shows as on exactly what the agent gets,
      for every name and selection. In any catalog it does exactly when no
      skill that is on is followed by one of the same name that is off. */
  lemma {:induction false} RulesAgree(c: Catalog, sel: Selection)
    ensures Distinct(c) ==> forall n :: ShownOn(c, sel, n) <==> n in OnNames(c, sel)
    ensures (forall n :: ShownOn(c, sel, n) <==> n in OnNames(c, sel)) <==>
            !exists s :: s in c && On(s, sel) && !ShownOn(c, sel, s.name)
  {
    if Distinct(c) {
      forall s | s in c && On(s, sel)
        ensures FindLast(c, s.name) == Some(s)
      {
        var i :| 0 <= i < |c| && c[i] == s;
        FindLastIs(c, i);
      }
    }
  }

  // ---- changing the selection ----

  function Without(xs: seq<string>, x: string): (r: seq<string>)
    ensures forall y :: y in r <==> y in xs && y != x
  {
    if |xs| == 0 then []
    else if xs[0] == x then Without(xs[1..], x)
    else [xs[0]] + Without(xs[1..], x)
  }

  predicate Accepted(c: Catalog, on: bool, name: string) {
    Find(c, name).Some? && (on || !Find(c, name).value.required)
  }

  /** One name switched. */
  function Switched(c: Catalog, sel: Selection, on: bool, name: string): Selection {
    if !Accepted(c, on, name) then sel else
    var defaultOn := Find(c, name).value.defaultOn;
    var disabled, enabled := Without(sel.disabled, name), Without(sel.enabled, name);
    Selection(if !on && defaultOn then disabled + [name] else disabled,
              if on && !defaultOn then enabled + [name] else enabled)
  }

  function SwitchedAll(c: Catalog, sel: Selection, on: bool, names: seq<string>): Selection {
    if |names| == 0 then sel
    else Switched(c, SwitchedAll(c, sel, on, names[..|names| - 1]), on, names[|names| - 1])
  }

  function Refused(c: Catalog, on: bool, names: seq<string>): (r: seq<string>)
    ensures |r| <= |names|
    ensures |r| == |names| <==> forall n | n in names :: !Accepted(c, on, n)
  {
    if |names| == 0 then [] else
    var n := names[|names| - 1];
    var before := Refused(c, on, names[..|names| - 1]);
    assert n in names && forall x | x in names :: x in names[..|names| - 1] || x == n;
    if Find(c, n).None? then before + [n + " (not in catalog)"]
    else if Find(c, n).value.required && !on then before + [n + " (required)"]
    else before
  }

  /** Each refused name is given with its reason: not in the catalog if no skill
      has it; required if the first skill that has it is and is to be switched
      off. All others are accepted, and the order is kept. */
  lemma {:induction false} RefusedSays(c: Catalog, on: bool, names: seq<string>, n: string)
    ensures (forall s | s in c :: s.name != n) ==>
              Refused(c, on, names + [n]) == Refused(c, on, names) + [n + " (not in catalog)"]
    ensures forall i | 0 <= i < |c| && c[i].name == n && (forall j | 0 <= j < i :: c[j].name != n) ::
              Refused(c, on, names + [n]) ==
              Refused(c, on, names) + if c[i].required && !on then [n + " (required)"] else []
  {
    assert (names + [n])[..|names|] == names;
    forall i | 0 <= i < |c| && c[i].name == n && (forall j | 0 <= j < i :: c[j].name != n)
      ensures Find(c, n) == Some(c[i])
    {
      FindFirst(c, i);
    }
  }

  lemma {:induction false} FindFirst(c: Catalog, i: nat)
    requires i < |c| && forall j | 0 <= j < i :: c[j].name != c[i].name
    ensures Find(c, c[i].name) == Some(c[i])
  {
    if i > 0 {
      assert c[1..][i - 1] == c[i];
      FindFirst(c[1..], i - 1);
    }
  }

  /** The selection after switching the names, and those refused. */
  method Apply(c: Catalog, sel: Selection, on: bool, names: seq<string>) returns (out: Selection, refused: seq<string>)
    ensures out == Sorted(SwitchedAll(c, sel, on, names)) && refused == Refused(c, on, names)
  {
    var disabled, enabled := sel.disabled, sel.enabled;
    refused := [];
    for k := 0 to |names|
      invariant Selection(disabled, enabled) == SwitchedAll(c, sel, on, names[..k])
      invariant refused == Refused(c, on, names[..k])
    {
      var n := names[k];
      assert names[..k + 1][..k] == names[..k];
      var s := Find(c, n);
      if s.None? {
        refused := refused + [n + " (not in catalog)"];
        continue;
      }
      if s.value.required && !on {
        refused := refused + [n + " (required)"];
        continue;
      }
      disabled, enabled := Without(disabled, n), Without(enabled, n);
      if on && !s.value.defaultOn {
        enabled := enabled + [n];
      }
      if !on && s.value.defaultOn {
        disabled := disabled + [n];
      }
    }
    assert names[..|names|] == names;
    out := Selection(Sort(disabled), Sort(enabled));
  }

  function Sorted(sel: Selection): Selection {
    Selection(Sort(sel.disabled), Sort(sel.enabled))
  }

  function Unique(xs: seq<string>): (r: seq<string>)
    ensures forall y :: y in r <==> y in xs
  {
    if |xs| == 0 then []
    else if xs[0] in xs[1..] then Unique(xs[1..])
    else [xs[0]] + Unique(xs[1..])
  }

  // ---- histories of commands and starts ----

  /** What a command finds: the selection still pending, if any, and the report
      stored with the profile, if any. */
  datatype Settings = Settings(pending: Option<Selection>, report: Option<Selection>)

  function Base(st: Settings): Selection {
    match (st.pending, st.report)
    case (Some(sel), _) => sel
    case (None, Some(sel)) => sel
    case (None, None) => Selection([], [])
  }

  /** A command that saves works on the selection it read, which need not be
      the one in force any more. A start of the agent may have created its pod,
      may have stored the report, may clear the selection it carried if none
      was saved meanwhile, and leaves some report. */
  datatype Event =
    | Switch(on: bool, names: seq<string>, read: Selection)
    | Reset
    | Show
    | Start(created: bool, patched: bool, cleared: bool, report: Option<Selection>)

  /** Some of the names are accepted, so the command saves a selection. */
  predicate Saves(c: Catalog, e: Event) {
    e.Switch? && |Refused(c, e.on, e.names)| < |e.names|
  }

  function Execute(c: Catalog, st: Settings, e: Event): Settings {
    match e
    case Switch(on, names, read) =>
      if Saves(c, e) then st.(pending := Some(Sorted(SwitchedAll(c, read, on, names)))) else st
    case Reset => st.(pending := Some(Selection([], [])))
    case Show => st
    case Start(_, _, cleared, report) => Settings(if cleared then None else st.pending, report)
  }

  function Run(c: Catalog, h: seq<Event>): Settings {
    if |h| == 0 then Settings(None, None) else Execute(c, Run(c, h[..|h| - 1]), h[|h| - 1])
  }

  predicate Names(c: Catalog, e: Event, name: string) {
    e.Switch? && name in e.names && Accepted(c, e.on, name)
  }

  /** The polarity of the last accepted switch of the skill since the last reset. */
  function LastWord(c: Catalog, h: seq<Event>, name: string): Option<bool> {
    if |h| == 0 then None else
    var e := h[|h| - 1];
    if Names(c, e, name) then Some(e.on)
    else if e.Reset? then None
    else LastWord(c, h[..|h| - 1], name)
  }

  /** What a selection says of a skill, required or not. */
  predicate Chosen(s: Skill, sel: Selection) {
    if s.defaultOn then s.name !in sel.disabled else s.name in sel.enabled
  }

  function Wanted(s: Skill, word: Option<bool>): bool {
    match word case Some(on) => on case None => s.defaultOn
  }

  /** Before and after the event, what is in force says the same of the skill. */
  predicate Agrees(c: Catalog, st: Settings, e: Event, s: Skill) {
    Chosen(s, if Saves(c, e) then e.read else Base(Execute(c, st, e))) == Chosen(s, Base(st))
  }

  /** Whether the last word on a skill is in force: it is once the skill has
      been switched or everything reset. A command about other skills, or a
      start, leaves that as it is iff it agrees on the skill: a command if what
      it read says the same of it as what was in force, a start if what it
      leaves in force does. */
  predicate Kept(c: Catalog, h: seq<Event>, s: Skill) {
    if |h| == 0 then true else
    var before, e := h[..|h| - 1], h[|h| - 1];
    if Names(c, e, s.name) || e.Reset? then true
    else Kept(c, before, s) <==> Agrees(c, Run(c, before), e, s)
  }

  lemma {:induction false} SwitchedChosen(c: Catalog, sel: Selection, on: bool, names: seq<string>, s: Skill)
    requires Find(c, s.name) == Some(s)
    ensures Chosen(s, SwitchedAll(c, sel, on, names)) ==
            if s.name in names && Accepted(c, on, s.name) then on else Chosen(s, sel)
  {
    if |names| > 0 {
      var n := |names| - 1;
      assert names == names[..n] + [names[n]];
      SwitchedChosen(c, sel, on, names[..n], s);
    }
  }

  lemma {:induction false} KeptIsWanted(c: Catalog, h: seq<Event>, s: Skill)
    requires Find(c, s.name) == Some(s)
    ensures Chosen(s, Base(Run(c, h))) == Wanted(s, LastWord(c, h, s.name)) <==> Kept(c, h, s)
  {
    if |h| > 0 {
      var before, e := h[..|h| - 1], h[|h| - 1];
      KeptIsWanted(c, before, s);
      if e.Switch? {
        SwitchedChosen(c, e.read, e.on, e.names, s);
      }
    }
  }

  /** Last writer wins, over any history: a required skill is on; any other has
      the polarity of the last accepted command that named it since the last
      reset, or else its default, iff that word was kept. */
  lemma {:induction false} LastWriterWins(c: Catalog, h: seq<Event>, i: nat)
    requires Distinct(c) && i < |c|
    ensures c[i].required ==> On(c[i], Base(Run(c, h)))
    ensures !c[i].required ==>
              (On(c[i], Base(Run(c, h))) == Wanted(c[i], LastWord(c, h, c[i].name)) <==> Kept(c, h, c[i]))
  {
    FindOnly(c, i);
    KeptIsWanted(c, h, c[i]);
  }

  /** A name that is refused keeps its state, whatever is switched with it, if
      the command read what is in force; and a command all of whose names are
      refused changes nothing at all. */
  lemma {:induction false} RefusedChangeNothing(c: Catalog, st: Settings, e: Event, i: nat)
    requires Distinct(c) && i < |c| && e.Switch? && !Names(c, e, c[i].name)
    ensures e.read == Base(st) ==> On(c[i], Base(Execute(c, st, e))) == On(c[i], Base(st))
    ensures (forall n | n in e.names :: !Accepted(c, e.on, n)) ==> Execute(c, st, e) == st
  {
    FindOnly(c, i);
    SwitchedChosen(c, e.read, e.on, e.names, c[i]);
  }

  /** The lists hold exactly the deviations from the default. */
  predicate Deviations(c: Catalog, sel: Selection, name: string, word: Option<bool>) {
    && (name in sel.disabled <==> Find(c, name).Some? && Find(c, name).value.defaultOn && word == Some(false))
    && (name in sel.enabled <==> Find(c, name).Some? && !Find(c, name).value.defaultOn && word == Some(true))
  }

  /** The skill is in no list that does not concern it. */
  predicate Tidy(s: Skill, sel: Selection) {
    if s.defaultOn then s.name !in sel.enabled else s.name !in sel.disabled
  }

  /** The selection in force lists a skill exactly if its last word differs
      from its default, iff that word was kept and no list has the skill that
      should not. */
  lemma {:induction false} OnlyDeviations(c: Catalog, h: seq<Event>, s: Skill)
    requires Find(c, s.name) == Some(s)
    ensures Deviations(c, Base(Run(c, h)), s.name, LastWord(c, h, s.name)) <==>
            Kept(c, h, s) && Tidy(s, Base(Run(c, h)))
  {
    KeptIsWanted(c, h, s);
  }

  // ---- what the backend does ----

  /** The selection as agent-sync writes it down: sorted sets. */
  function Settled(sel: Selection): Selection {
    Sorted(Selection(Unique(sel.disabled), Unique(sel.enabled)))
  }

  /** The selection written in the profile after an event: a pod that was
      created with a selection writes it down. */
  function Written(st: Settings, e: Event, disk: Selection): Selection {
    if e.Start? && e.created && st.pending.Some? then Settled(st.pending.value) else disk
  }

  function Disk(c: Catalog, h: seq<Event>): Selection {
    if |h| == 0 then Selection([], []) else
    Written(Run(c, h[..|h| - 1]), h[|h| - 1], Disk(c, h[..|h| - 1]))
  }

  /** A start leaves the report of its pod, which is what the profile holds, or
      if that could not be read or stored the report there was. */
  predicate Reported(c: Catalog, before: seq<Event>, e: Event) {
    e.Start? ==>
      e.report == if e.patched then Some(Written(Run(c, before), e, Disk(c, before))) else Run(c, before).report
  }

  predicate Backed(c: Catalog, h: seq<Event>) {
    |h| == 0 || (Backed(c, h[..|h| - 1]) && Reported(c, h[..|h| - 1], h[|h| - 1]))
  }

  /** Commands take turns, and a start that clears a selection created its pod
      with it and stored the report. */
  predicate Careful(c: Catalog, h: seq<Event>) {
    |h| == 0 ||
    var before, e := h[..|h| - 1], h[|h| - 1];
    && Careful(c, before)
    && (Saves(c, e) ==> e.read == Base(Run(c, before)))
    && (e.Start? && e.cleared && Run(c, before).pending.Some? ==> e.created && e.patched)
  }

  lemma {:induction false} SettledSame(s: Skill, sel: Selection)
    ensures Chosen(s, Settled(sel)) == Chosen(s, sel)
  {}

  /** With nothing pending, the profile says of each skill what is in force. */
  lemma {:induction false} CarefulKeeps(c: Catalog, h: seq<Event>, s: Skill)
    requires Find(c, s.name) == Some(s) && Backed(c, h) && Careful(c, h)
    ensures Kept(c, h, s)
    ensures Run(c, h).pending.None? ==> Chosen(s, Base(Run(c, h))) == Chosen(s, Disk(c, h))
  {
    if |h| > 0 {
      var before, e := h[..|h| - 1], h[|h| - 1];
      CarefulKeeps(c, before, s);
      var st := Run(c, before);
      if st.pending.Some? {
        SettledSame(s, st.pending.value);
      }
    }
  }

  /** So while that is so, the last writer wins for every skill. */
  lemma {:induction false} CarefulLastWriterWins(c: Catalog, h: seq<Event>, i: nat)
    requires Distinct(c) && i < |c| && Backed(c, h) && Careful(c, h)
    ensures On(c[i], Base(Run(c, h))) == (c[i].required || Wanted(c[i], LastWord(c, h, c[i].name)))
  {
    FindOnly(c, i);
    CarefulKeeps(c, h, c[i]);
    KeptIsWanted(c, h, c[i]);
  }

  lemma {:induction false} SwitchedTidy(c: Catalog, sel: Selection, on: bool, names: seq<string>, s: Skill)
    requires Find(c, s.name) == Some(s) && Tidy(s, sel)
    ensures Tidy(s, SwitchedAll(c, sel, on, names))
  {
    if |names| > 0 {
      SwitchedTidy(c, sel, on, names[..|names| - 1], s);
    }
  }

  lemma {:induction false} CarefulTidy(c: Catalog, h: seq<Event>, s: Skill)
    requires Find(c, s.name) == Some(s) && Backed(c, h) && Careful(c, h)
    ensures Tidy(s, Base(Run(c, h))) && Tidy(s, Disk(c, h))
  {
    if |h| > 0 {
      var e := h[|h| - 1];
      CarefulTidy(c, h[..|h| - 1], s);
      if e.Switch? && Saves(c, e) {
        SwitchedTidy(c, e.read, e.on, e.names, s);
      }
    }
  }

  /** And the selection in force, which with nothing pending is the profile's,
      lists exactly the skills whose last word differs from their default. */
  lemma {:induction false} CarefulDeviations(c: Catalog, h: seq<Event>, s: Skill)
    requires Find(c, s.name) == Some(s) && Backed(c, h) && Careful(c, h)
    ensures Deviations(c, Base(Run(c, h)), s.name, LastWord(c, h, s.name))
    ensures Run(c, h).pending.None? ==> Deviations(c, Disk(c, h), s.name, LastWord(c, h, s.name))
  {
    CarefulKeeps(c, h, s);
    CarefulTidy(c, h, s);
    KeptIsWanted(c, h, s);
  }

  // ---- histories in which a word is lost ----

  const X := Skill("x", false, true)
  const Y := Skill("y", false, true)
  const TWO: Catalog := [X, Y]
  const NONE := Selection([], [])
  const XOFF := Selection(["x"], [])
  const YOFF := Selection(["y"], [])

  lemma {:induction false} TwoSkills()
    ensures Distinct(TWO) && Find(TWO, "x") == Some(X) && Find(TWO, "y") == Some(Y)
  {
    assert TWO[1..] == [Y];
  }

  /** One of the two skills switched off. */
  lemma {:induction false} OneOff(name: string)
    requires name == "x" || name == "y"
    ensures Saves(TWO, Switch(false, [name], NONE)) && Names(TWO, Switch(false, [name], NONE), name)
    ensures Sorted(SwitchedAll(TWO, NONE, false, [name])) == Selection([name], [])
  {
    TwoSkills();
    assert [name][..0] == [] && [name][1..] == [];
    assert SwitchedAll(TWO, NONE, false, [name]) == Switched(TWO, NONE, false, name) == Selection([name], []);
    assert Sort([name]) == Insert(name, Sort([])) == [name];
  }

  /** x is switched off, the start with that selection attaches to a pod it did
      not create or fails to store the report, y is switched off: the second
      command works on the old report, and x is on again. */
  lemma {:induction false} UnstoredReportLosesWord(created: bool, patched: bool) returns (h: seq<Event>)
    requires !(created && patched)
    ensures var start := Start(created, patched, true, if patched then Some(NONE) else None);
            h == [Switch(false, ["x"], NONE), start, Switch(false, ["y"], NONE)]
    ensures Backed(TWO, h) && Base(Run(TWO, h[..2])) == NONE && Base(Run(TWO, h)) == YOFF
    ensures LastWord(TWO, h, "x") == Some(false) && On(X, Base(Run(TWO, h))) && !Kept(TWO, h, X)
  {
    var off, off' := Switch(false, ["x"], NONE), Switch(false, ["y"], NONE);
    var report := if patched then Some(NONE) else None;
    var start := Start(created, patched, true, report);
    h := [off, start, off'];
    assert h[..2] == [off, start] && [off, start][..1] == [off] && [off][..0] == [];
    OneOff("x");
    OneOff("y");
    TwoSkills();
    assert Backed(TWO, []) && Disk(TWO, []) == NONE;
    assert Run(TWO, [off]) == Settings(Some(XOFF), None) && Backed(TWO, [off]) && Disk(TWO, [off]) == NONE;
    assert Run(TWO, [off, start]) == Settings(None, report) && Backed(TWO, [off, start]);
    assert Run(TWO, h).pending == Some(YOFF) && Backed(TWO, h);
    assert LastWord(TWO, [off], "x") == LastWord(TWO, [off, start], "x") == Some(false);
    KeptIsWanted(TWO, h, X);
  }

  /** Two commands at once: the second read its base before the first saved. */
  lemma {:induction false} RacedCommandLosesWord() returns (h: seq<Event>)
    ensures h == [Switch(false, ["x"], NONE), Switch(false, ["y"], NONE)]
    ensures Backed(TWO, h) && Base(Run(TWO, [])) == NONE && Base(Run(TWO, h)) == YOFF
    ensures LastWord(TWO, h, "x") == Some(false) && On(X, Base(Run(TWO, h))) && !Kept(TWO, h, X)
  {
    var off, off' := Switch(false, ["x"], NONE), Switch(false, ["y"], NONE);
    h := [off, off'];
    assert h[..1] == [off] && [off][..0] == [];
    OneOff("x");
    OneOff("y");
    TwoSkills();
    assert Backed(TWO, []);
    assert Run(TWO, [off]) == Settings(Some(XOFF), None) && Backed(TWO, [off]);
    assert Run(TWO, h) == Settings(Some(YOFF), None) && Backed(TWO, h);
    assert LastWord(TWO, [off], "x") == Some(false);
    KeptIsWanted(TWO, h, X);
  }
}
