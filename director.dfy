/** The choreography stepper of src/director.py: each tick applies one frame of edits to
    the lights, props and smoke machines, unless the frame is being held ("buffered"),
    and then moves on to the next frame, looping. Python raises on a malformed entry;
    here every such exception is a `None` (or a `raised` flag), and the state is what
    Python leaves behind when it raises. */
module Director {
  import opened Wrappers
  import opened Json
  import opened Colours
  import opened Smoke

  /** A light (src/light.py:14-31) as the choreography edits it. */
  datatype Light = Light(colour: Colour, position: real, direction: real, intensity: real, spread: real)

  /** A prop (src/prop.py:17-26), without its image. */
  datatype Prop = Prop(position: (real, real), scale: real)

  /** The bins of `objectBins` (src/director.py:19-25) that `step` reaches. A smoke
      machine volume is abstract: its entry counts the calls of its `step()`. */
  datatype Bins = Bins(lights: map<string, Light>, props: map<string, Prop>,
                       smokeMachines: map<string, SmokeMachine>, volumeSteps: map<string, nat>)

  // ---------------------------------------------------------------------------
  // One entry of a frame (src/director.py:163-275)
  // ---------------------------------------------------------------------------

  /** The edit arguments that read an operand. */
  predicate IsEdit(arg: Value) {
    arg == Str("add") || arg == Str("set") || arg == Str("sub")
  }

  /** The `add` / `set` / `sub` edit of a numeric field (e.g. src/director.py:173-180),
      given the operand `step[4]` (`None` when the entry is too short). It raises when
      the operand is needed and missing or not a number, and when an unknown `arg` is
      not a string (the message `"..." + arg` cannot be built); an unknown string `arg`
      only prints. */
  function EditNumber(field: real, arg: Value, operand: Option<Value>): (r: Option<real>)
    ensures r.None? <==> !arg.Str? || (IsEdit(arg) && !(operand.Some? && operand.value.Num?))
    ensures arg.Str? && !IsEdit(arg) ==> r == Some(field)
    ensures arg == Str("set") && r.Some? ==> r == Some(operand.value.n)
    ensures arg == Str("add") && r.Some? ==> r == Some(field + operand.value.n)
    ensures arg == Str("sub") && r.Some? ==> r == Some(field - operand.value.n)
  {
    if arg == Str("add") then
      (match operand case Some(Num(n)) => Some(field + n) case _ => None)
    else if arg == Str("set") then
      (match operand case Some(Num(n)) => Some(n) case _ => None)
    else if arg == Str("sub") then
      (match operand case Some(Num(n)) => Some(field - n) case _ => None)
    else if arg.Str? then Some(field)
    else None
  }

  /** The operand `step[4]` read as a pair of numbers `(step[4][0], step[4][1])`. */
  function NumberPair(operand: Option<Value>): (r: Option<(real, real)>)
    ensures r.Some? ==> operand.Some? && operand.value.List? && |operand.value.items| >= 2
    ensures r.Some? ==> operand.value.items[0] == Num(r.value.0) && operand.value.items[1] == Num(r.value.1)
    ensures (operand.Some? && operand.value.List? && |operand.value.items| >= 2 &&
             operand.value.items[0].Num? && operand.value.items[1].Num?) ==> r.Some?
  {
    match operand
    case None => None
    case Some(v) =>
      (match (Subscript(v, 0), Subscript(v, 1))
       case (Some(Num(a)), Some(Num(b))) => Some((a, b))
       case _ => None)
  }

  /** The edit of an `(x, y)` position (src/director.py:207-224, 240-257). */
  function EditPair(field: (real, real), arg: Value, operand: Option<Value>): (r: Option<(real, real)>)
    ensures r.None? <==> !arg.Str? || (IsEdit(arg) && NumberPair(operand).None?)
    ensures arg.Str? && !IsEdit(arg) ==> r == Some(field)
  {
    if IsEdit(arg) then
      match NumberPair(operand)
      case None => None
      case Some((a, b)) =>
        if arg == Str("add") then Some((field.0 + a, field.1 + b))
        else if arg == Str("set") then Some((a, b))
        else Some((field.0 - a, field.1 - b))
    else if arg.Str? then Some(field)
    else None
  }

  /** Both halves, or `None`. */
  function Both(a: Option<real>, b: Option<real>): Option<(real, real)> {
    if a.Some? && b.Some? then Some((a.value, b.value)) else None
  }

  /** A position edit is the numeric edit applied to each coordinate on its own. */
  lemma PairIsComponentwise(field: (real, real), arg: Value, v: Value, a: real, b: real)
    requires Subscript(v, 0) == Some(Num(a)) && Subscript(v, 1) == Some(Num(b))
    ensures EditPair(field, arg, Some(v)) == Both(EditNumber(field.0, arg, Some(Num(a))), EditNumber(field.1, arg, Some(Num(b))))
  {
  }

  /** The edits of a light (src/director.py:172-200): its position, direction and
      intensity are numbers; `colour` replaces the colour by `Colour(step[3])`; any
      other action changes nothing. */
  function EditLight(light: Light, action: Value, arg: Value, operand: Option<Value>): (r: Option<Light>)
    ensures action == Str("colour") ==> r == Some(light.(colour := Colour(arg)))
    ensures r.Some? ==> r.value.spread == light.spread
    ensures r.Some? && action != Str("colour") ==> r.value.colour == light.colour
    ensures r.Some? && action != Str("position") ==> r.value.position == light.position
    ensures r.Some? && action != Str("direction") ==> r.value.direction == light.direction
    ensures r.Some? && action != Str("intensity") ==> r.value.intensity == light.intensity
  {
    if action == Str("position") then
      (match EditNumber(light.position, arg, operand) case Some(p) => Some(light.(position := p)) case None => None)
    else if action == Str("direction") then
      (match EditNumber(light.direction, arg, operand) case Some(d) => Some(light.(direction := d)) case None => None)
    else if action == Str("intensity") then
      (match EditNumber(light.intensity, arg, operand) case Some(i) => Some(light.(intensity := i)) case None => None)
    else if action == Str("colour") then Some(light.(colour := Colour(arg)))
    else Some(light)
  }

  /** The edits of a prop (src/director.py:207-233). */
  function EditProp(prop: Prop, action: Value, arg: Value, operand: Option<Value>): (r: Option<Prop>)
    ensures r.Some? && action != Str("position") ==> r.value.position == prop.position
    ensures r.Some? && action != Str("scale") ==> r.value.scale == prop.scale
  {
    if action == Str("position") then
      (match EditPair(prop.position, arg, operand) case Some(p) => Some(prop.(position := p)) case None => None)
    else if action == Str("scale") then
      (match EditNumber(prop.scale, arg, operand) case Some(s) => Some(prop.(scale := s)) case None => None)
    else Some(prop)
  }

  /** The edits of a smoke machine (src/director.py:240-266). */
  function EditMachine(machine: SmokeMachine, action: Value, arg: Value, operand: Option<Value>): (r: Option<SmokeMachine>)
    ensures r.Some? ==> r.value.direction == machine.direction
    ensures r.Some? && action != Str("position") ==> r.value.position == machine.position
    ensures r.Some? && action != Str("intensity") ==> r.value.intensity == machine.intensity
  {
    if action == Str("position") then
      (match EditPair(machine.position, arg, operand) case Some(p) => Some(machine.(position := p)) case None => None)
    else if action == Str("intensity") then
      (match EditNumber(machine.intensity, arg, operand) case Some(i) => Some(machine.(intensity := i)) case None => None)
    else Some(machine)
  }

  /** `add` then `sub` of the same number restores a numeric field. */
  lemma NumberUndo(field: real, n: real)
    ensures EditNumber(EditNumber(field, Str("add"), Some(Num(n))).value, Str("sub"), Some(Num(n))) == Some(field)
  {
  }

  /** `add` then `sub` of the same pair restores a position. */
  lemma PairUndo(field: (real, real), operand: Option<Value>)
    requires NumberPair(operand).Some?
    ensures EditPair(EditPair(field, Str("add"), operand).value, Str("sub"), operand) == Some(field)
  {
  }

  /** `add` then `sub` of the same operand restores a light, whatever the action except
      `colour`, which takes the argument as the new colour. */
  lemma LightUndo(light: Light, action: Value, operand: Option<Value>)
    requires action != Str("colour") && EditLight(light, action, Str("add"), operand).Some?
    ensures EditLight(EditLight(light, action, Str("add"), operand).value, action, Str("sub"), operand) == Some(light)
  {
  }

  lemma PropUndo(prop: Prop, action: Value, operand: Option<Value>)
    requires EditProp(prop, action, Str("add"), operand).Some?
    ensures EditProp(EditProp(prop, action, Str("add"), operand).value, action, Str("sub"), operand) == Some(prop)
  {
    if action == Str("position") {
      PairUndo(prop.position, operand);
    }
  }

  lemma MachineUndo(machine: SmokeMachine, action: Value, operand: Option<Value>)
    requires EditMachine(machine, action, Str("add"), operand).Some?
    ensures EditMachine(EditMachine(machine, action, Str("add"), operand).value, action, Str("sub"), operand) == Some(machine)
  {
    if action == Str("position") {
      PairUndo(machine.position, operand);
    }
  }

  /** A second `set` of a field gives what it gives on its own. */
  lemma LightSetOverwrites(light: Light, action: Value, operand: Option<Value>, again: Option<Value>)
    requires EditLight(light, action, Str("set"), operand).Some?
    ensures EditLight(EditLight(light, action, Str("set"), operand).value, action, Str("set"), again)
         == EditLight(light, action, Str("set"), again)
  {
  }

  lemma PropSetOverwrites(prop: Prop, action: Value, operand: Option<Value>, again: Option<Value>)
    requires EditProp(prop, action, Str("set"), operand).Some?
    ensures EditProp(EditProp(prop, action, Str("set"), operand).value, action, Str("set"), again)
         == EditProp(prop, action, Str("set"), again)
  {
  }

  lemma MachineSetOverwrites(machine: SmokeMachine, action: Value, operand: Option<Value>, again: Option<Value>)
    requires EditMachine(machine, action, Str("set"), operand).Some?
    ensures EditMachine(EditMachine(machine, action, Str("set"), operand).value, action, Str("set"), again)
         == EditMachine(machine, action, Str("set"), again)
  {
  }

  /** Whether `entry` is an edit of the object `name` of type `kind`. */
  predicate Names(entry: seq<Value>, kind: string, name: string) {
    |entry| > 1 && entry[0] == Str(kind) && entry[1] == Str(name)
  }

  /** Whether `entry` reaches the existing object `step[1]` of a bin and has an action and
      an argument (`step[2]`, `step[3]`); otherwise the lookup or the reads raise. */
  predicate Reaches<T>(bin: map<string, T>, entry: seq<Value>) {
    |entry| >= 4 && entry[1].Str? && entry[1].s in bin
  }

  /** A `"light"` entry (src/director.py:167-201). */
  function ApplyLight(bins: Bins, entry: seq<Value>): (r: Option<Bins>)
    ensures r.Some? ==> r.value == bins.(lights := r.value.lights)
    ensures r.Some? ==> r.value.lights.Keys == bins.lights.Keys
    ensures r.Some? ==> forall k :: k in bins.lights && (|entry| < 2 || entry[1] != Str(k)) ==> r.value.lights[k] == bins.lights[k]
  {
    if !Reaches(bins.lights, entry) then None
    else
      match EditLight(bins.lights[entry[1].s], entry[2], entry[3], PyIndex(entry, 4))
      case Some(l) => Some(bins.(lights := bins.lights[entry[1].s := l]))
      case None => None
  }

  /** A `"prop"` entry (src/director.py:202-234). */
  function ApplyProp(bins: Bins, entry: seq<Value>): (r: Option<Bins>)
    ensures r.Some? ==> r.value == bins.(props := r.value.props)
    ensures r.Some? ==> r.value.props.Keys == bins.props.Keys
    ensures r.Some? ==> forall k :: k in bins.props && (|entry| < 2 || entry[1] != Str(k)) ==> r.value.props[k] == bins.props[k]
  {
    if !Reaches(bins.props, entry) then None
    else
      match EditProp(bins.props[entry[1].s], entry[2], entry[3], PyIndex(entry, 4))
      case Some(p) => Some(bins.(props := bins.props[entry[1].s := p]))
      case None => None
  }

  /** A `"smokemachine"` entry (src/director.py:235-267). */
  function ApplyMachine(bins: Bins, entry: seq<Value>): (r: Option<Bins>)
    ensures r.Some? ==> r.value == bins.(smokeMachines := r.value.smokeMachines)
    ensures r.Some? ==> r.value.smokeMachines.Keys == bins.smokeMachines.Keys
    ensures r.Some? ==> forall k :: k in bins.smokeMachines && (|entry| < 2 || entry[1] != Str(k)) ==>
                          r.value.smokeMachines[k] == bins.smokeMachines[k]
  {
    if !Reaches(bins.smokeMachines, entry) then None
    else
      match EditMachine(bins.smokeMachines[entry[1].s], entry[2], entry[3], PyIndex(entry, 4))
      case Some(m) => Some(bins.(smokeMachines := bins.smokeMachines[entry[1].s := m]))
      case None => None
  }

  /** Wraps a new set of bins with an unchanged buffering count. */
  function KeepBuffering(r: Option<Bins>, buffering: Value): Option<(Bins, Value)> {
    match r
    case Some(b) => Some((b, buffering))
    case None => None
  }

  /** One entry `step` of a frame (src/director.py:163-275), applied to the bins and the
      buffering count: `None` when Python raises. Only the object the entry names can
      change, no object appears or disappears, and only a `"buffer"` entry touches the
      buffering count. */
  function ApplyEntry(bins: Bins, buffering: Value, entry: seq<Value>): (r: Option<(Bins, Value)>)
    ensures r.Some? ==> r.value.0.volumeSteps == bins.volumeSteps
    ensures r.Some? ==> r.value.0.lights.Keys == bins.lights.Keys && r.value.0.props.Keys == bins.props.Keys
                        && r.value.0.smokeMachines.Keys == bins.smokeMachines.Keys
    ensures r.Some? ==> forall k :: k in bins.lights && !Names(entry, "light", k) ==> r.value.0.lights[k] == bins.lights[k]
    ensures r.Some? ==> forall k :: k in bins.props && !Names(entry, "prop", k) ==> r.value.0.props[k] == bins.props[k]
    ensures r.Some? ==> forall k :: k in bins.smokeMachines && !Names(entry, "smokemachine", k) ==>
                          r.value.0.smokeMachines[k] == bins.smokeMachines[k]
    ensures r.Some? && (|entry| == 0 || entry[0] != Str("buffer")) ==> r.value.1 == buffering
    ensures |entry| == 0 ==> r.None?
  {
    if |entry| == 0 then None
    else if entry[0] == Str("light") then KeepBuffering(ApplyLight(bins, entry), buffering)
    else if entry[0] == Str("prop") then KeepBuffering(ApplyProp(bins, entry), buffering)
    else if entry[0] == Str("smokemachine") then KeepBuffering(ApplyMachine(bins, entry), buffering)
    else if entry[0] == Str("buffer") then
      if |entry| < 2 then None else Some((bins, entry[1]))
    else if entry[0].Str? then
      // "lightgroup", "smokemachinevolume" (src/director.py:268-271), and an unknown
      // type, which only prints.
      Some((bins, buffering))
    else
      // "Unknown step type: " + t cannot be built from a value that is not a string.
      None
  }

  /** A `"buffer"` entry holds the next `step[1]` ticks and changes no object
      (src/director.py:272-273). */
  lemma BufferEntry(bins: Bins, buffering: Value, entry: seq<Value>)
    requires |entry| >= 2 && entry[0] == Str("buffer")
    ensures ApplyEntry(bins, buffering, entry) == Some((bins, entry[1]))
  {
  }

  /** `"lightgroup"` and `"smokemachinevolume"` entries, and entries of an unknown type,
      change nothing (src/director.py:268-271, 274-275). */
  lemma PassiveEntry(bins: Bins, buffering: Value, entry: seq<Value>)
    requires |entry| > 0 && entry[0].Str?
    requires entry[0].s !in {"light", "prop", "smokemachine", "buffer"}
    ensures ApplyEntry(bins, buffering, entry) == Some((bins, buffering))
  {
  }

  /** Whether `entry` is an edit of an existing light, prop or smoke machine. */
  predicate ReachesObject(bins: Bins, entry: seq<Value>) {
    |entry| > 0
    && ((entry[0] == Str("light") && Reaches(bins.lights, entry))
        || (entry[0] == Str("prop") && Reaches(bins.props, entry))
        || (entry[0] == Str("smokemachine") && Reaches(bins.smokeMachines, entry)))
  }

  /** An edit entry is the edit of its own kind of object. */
  lemma EntryDispatch(bins: Bins, buffering: Value, entry: seq<Value>)
    requires |entry| > 0
    ensures entry[0] == Str("light") ==> ApplyEntry(bins, buffering, entry) == KeepBuffering(ApplyLight(bins, entry), buffering)
    ensures entry[0] == Str("prop") ==> ApplyEntry(bins, buffering, entry) == KeepBuffering(ApplyProp(bins, entry), buffering)
    ensures entry[0] == Str("smokemachine") ==> ApplyEntry(bins, buffering, entry) == KeepBuffering(ApplyMachine(bins, entry), buffering)
  {
  }

  /** An unknown string argument, or an action a light does not have, leaves the light
      as it is. */
  lemma LightUnknownKeeps(light: Light, action: Value, arg: Value, operand: Option<Value>)
    requires action != Str("colour")
    requires (arg.Str? && !IsEdit(arg)) ||
             (action != Str("position") && action != Str("direction") && action != Str("intensity"))
    ensures EditLight(light, action, arg, operand) == Some(light)
  {
  }

  /** An unknown string argument, or an action a prop does not have, leaves the prop as
      it is. */
  lemma PropUnknownKeeps(prop: Prop, action: Value, arg: Value, operand: Option<Value>)
    requires (arg.Str? && !IsEdit(arg)) || (action != Str("position") && action != Str("scale"))
    ensures EditProp(prop, action, arg, operand) == Some(prop)
  {
  }

  /** An unknown string argument, or an action a smoke machine does not have, leaves the
      machine as it is. */
  lemma MachineUnknownKeeps(machine: SmokeMachine, action: Value, arg: Value, operand: Option<Value>)
    requires (arg.Str? && !IsEdit(arg)) || (action != Str("position") && action != Str("intensity"))
    ensures EditMachine(machine, action, arg, operand) == Some(machine)
  {
  }

  lemma LightEntryKeeps(bins: Bins, entry: seq<Value>)
    requires Reaches(bins.lights, entry) && entry[2] != Str("colour") && entry[3].Str? && !IsEdit(entry[3])
    ensures ApplyLight(bins, entry) == Some(bins)
  {
    var name := entry[1].s;
    LightUnknownKeeps(bins.lights[name], entry[2], entry[3], PyIndex(entry, 4));
    assert bins.lights[name := bins.lights[name]] == bins.lights;
  }

  lemma PropEntryKeeps(bins: Bins, entry: seq<Value>)
    requires Reaches(bins.props, entry) && entry[2] != Str("colour") && entry[3].Str? && !IsEdit(entry[3])
    ensures ApplyProp(bins, entry) == Some(bins)
  {
    var name := entry[1].s;
    PropUnknownKeeps(bins.props[name], entry[2], entry[3], PyIndex(entry, 4));
    assert bins.props[name := bins.props[name]] == bins.props;
  }

  lemma MachineEntryKeeps(bins: Bins, entry: seq<Value>)
    requires Reaches(bins.smokeMachines, entry) && entry[2] != Str("colour") && entry[3].Str? && !IsEdit(entry[3])
    ensures ApplyMachine(bins, entry) == Some(bins)
  {
    var name := entry[1].s;
    MachineUnknownKeeps(bins.smokeMachines[name], entry[2], entry[3], PyIndex(entry, 4));
    assert bins.smokeMachines[name := bins.smokeMachines[name]] == bins.smokeMachines;
  }

  /** An unknown action, or an unknown string argument to a known one, changes no
      object (src/director.py:179-180, 223-224, 232-233, 256-257, 265-266). */
  lemma UnknownEdit(bins: Bins, buffering: Value, entry: seq<Value>)
    requires ReachesObject(bins, entry) && entry[2] != Str("colour") && entry[3].Str? && !IsEdit(entry[3])
    ensures ApplyEntry(bins, buffering, entry) == Some((bins, buffering))
  {
    EntryDispatch(bins, buffering, entry);
    if entry[0] == Str("light") {
      LightEntryKeeps(bins, entry);
    } else if entry[0] == Str("prop") {
      PropEntryKeeps(bins, entry);
    } else {
      MachineEntryKeeps(bins, entry);
    }
  }

  lemma LightEntryUndo(bins: Bins, entry: seq<Value>)
    requires |entry| >= 5 && entry[3] == Str("add") && entry[2] != Str("colour") && ApplyLight(bins, entry).Some?
    ensures ApplyLight(ApplyLight(bins, entry).value, entry[3 := Str("sub")]) == Some(bins)
  {
    var name := entry[1].s;
    assert PyIndex(entry[3 := Str("sub")], 4) == PyIndex(entry, 4);
    LightUndo(bins.lights[name], entry[2], PyIndex(entry, 4));
    var after := ApplyLight(bins, entry).value;
    assert after.lights[name := bins.lights[name]] == bins.lights;
  }

  lemma PropEntryUndo(bins: Bins, entry: seq<Value>)
    requires |entry| >= 5 && entry[3] == Str("add") && ApplyProp(bins, entry).Some?
    ensures ApplyProp(ApplyProp(bins, entry).value, entry[3 := Str("sub")]) == Some(bins)
  {
    var name := entry[1].s;
    assert PyIndex(entry[3 := Str("sub")], 4) == PyIndex(entry, 4);
    PropUndo(bins.props[name], entry[2], PyIndex(entry, 4));
    var after := ApplyProp(bins, entry).value;
    assert after.props[name := bins.props[name]] == bins.props;
  }

  lemma MachineEntryUndo(bins: Bins, entry: seq<Value>)
    requires |entry| >= 5 && entry[3] == Str("add") && ApplyMachine(bins, entry).Some?
    ensures ApplyMachine(ApplyMachine(bins, entry).value, entry[3 := Str("sub")]) == Some(bins)
  {
    var name := entry[1].s;
    assert PyIndex(entry[3 := Str("sub")], 4) == PyIndex(entry, 4);
    MachineUndo(bins.smokeMachines[name], entry[2], PyIndex(entry, 4));
    var after := ApplyMachine(bins, entry).value;
    assert after.smokeMachines[name := bins.smokeMachines[name]] == bins.smokeMachines;
  }

  /** `add` followed by `sub` of the same operand restores every object, for every
      numeric field and every position (src/director.py:172-198, 207-266). The `colour`
      action is excluded: it takes `step[3]` as the new colour. */
  lemma AddThenSubRestores(bins: Bins, buffering: Value, entry: seq<Value>)
    requires |entry| >= 5 && entry[3] == Str("add") && entry[2] != Str("colour") && entry[0] != Str("buffer")
    requires ApplyEntry(bins, buffering, entry).Some?
    ensures ApplyEntry(ApplyEntry(bins, buffering, entry).value.0, ApplyEntry(bins, buffering, entry).value.1,
                       entry[3 := Str("sub")]) == Some((bins, buffering))
  {
    var undo := entry[3 := Str("sub")];
    var after := ApplyEntry(bins, buffering, entry).value.0;
    EntryDispatch(bins, buffering, entry);
    EntryDispatch(after, buffering, undo);
    if entry[0] == Str("light") {
      LightEntryUndo(bins, entry);
    } else if entry[0] == Str("prop") {
      PropEntryUndo(bins, entry);
    } else if entry[0] == Str("smokemachine") {
      MachineEntryUndo(bins, entry);
    }
  }

  lemma LightEntrySet(bins: Bins, entry: seq<Value>, v: Value)
    requires |entry| >= 5 && entry[3] == Str("set") && ApplyLight(bins, entry).Some?
    ensures ApplyLight(ApplyLight(bins, entry).value, entry[4 := v]) == ApplyLight(bins, entry[4 := v])
  {
    var name := entry[1].s;
    LightSetOverwrites(bins.lights[name], entry[2], PyIndex(entry, 4), PyIndex(entry[4 := v], 4));
    var after := ApplyLight(bins, entry).value;
    var again := entry[4 := v];
    assert again[1] == entry[1] && again[2] == entry[2] && again[3] == entry[3];
    match EditLight(bins.lights[name], entry[2], entry[3], PyIndex(again, 4))
    case Some(x) =>
      assert after.lights[name := x] == bins.lights[name := x];
    case None =>
  }

  lemma PropEntrySet(bins: Bins, entry: seq<Value>, v: Value)
    requires |entry| >= 5 && entry[3] == Str("set") && ApplyProp(bins, entry).Some?
    ensures ApplyProp(ApplyProp(bins, entry).value, entry[4 := v]) == ApplyProp(bins, entry[4 := v])
  {
    var name := entry[1].s;
    PropSetOverwrites(bins.props[name], entry[2], PyIndex(entry, 4), PyIndex(entry[4 := v], 4));
    var after := ApplyProp(bins, entry).value;
    var again := entry[4 := v];
    assert again[1] == entry[1] && again[2] == entry[2] && again[3] == entry[3];
    match EditProp(bins.props[name], entry[2], entry[3], PyIndex(again, 4))
    case Some(x) =>
      assert after.props[name := x] == bins.props[name := x];
    case None =>
  }

  lemma MachineEntrySet(bins: Bins, entry: seq<Value>, v: Value)
    requires |entry| >= 5 && entry[3] == Str("set") && ApplyMachine(bins, entry).Some?
    ensures ApplyMachine(ApplyMachine(bins, entry).value, entry[4 := v]) == ApplyMachine(bins, entry[4 := v])
  {
    var name := entry[1].s;
    MachineSetOverwrites(bins.smokeMachines[name], entry[2], PyIndex(entry, 4), PyIndex(entry[4 := v], 4));
    var after := ApplyMachine(bins, entry).value;
    var again := entry[4 := v];
    assert again[1] == entry[1] && again[2] == entry[2] && again[3] == entry[3];
    match EditMachine(bins.smokeMachines[name], entry[2], entry[3], PyIndex(again, 4))
    case Some(x) =>
      assert after.smokeMachines[name := x] == bins.smokeMachines[name := x];
    case None =>
  }

  /** A `set` forgets what was there: a second `set` of the same field gives what that
      `set` alone gives (src/director.py:175-176, 213-217, 228-229, 246-250, 261-262). */
  lemma SetOverwrites(bins: Bins, buffering: Value, entry: seq<Value>, v: Value)
    requires |entry| >= 5 && entry[3] == Str("set") && entry[0] != Str("buffer")
    requires ApplyEntry(bins, buffering, entry).Some?
    ensures ApplyEntry(ApplyEntry(bins, buffering, entry).value.0, buffering, entry[4 := v])
         == ApplyEntry(bins, buffering, entry[4 := v])
  {
    var again := entry[4 := v];
    var after := ApplyEntry(bins, buffering, entry).value.0;
    EntryDispatch(bins, buffering, entry);
    EntryDispatch(after, buffering, again);
    EntryDispatch(bins, buffering, again);
    if entry[0] == Str("light") {
      LightEntrySet(bins, entry, v);
    } else if entry[0] == Str("prop") {
      PropEntrySet(bins, entry, v);
    } else if entry[0] == Str("smokemachine") {
      MachineEntrySet(bins, entry, v);
    }
  }

  // ---------------------------------------------------------------------------
  // A frame and a tick (src/director.py:148-279)
  // ---------------------------------------------------------------------------

  /** Where the loop over a frame's entries stops: the state it leaves, and whether an
      entry raised (the rest of the frame is then skipped). */
  datatype Progress = Progress(bins: Bins, buffering: Value, raised: bool)

  /** The loop `for step in thisStep` (src/director.py:163-275). Entries only edit the
      objects named in them; no object appears or disappears and no volume is stepped. */
  function ApplyEntries(bins: Bins, buffering: Value, entries: seq<seq<Value>>): (r: Progress)
    ensures r.bins.volumeSteps == bins.volumeSteps
    ensures r.bins.lights.Keys == bins.lights.Keys && r.bins.props.Keys == bins.props.Keys
            && r.bins.smokeMachines.Keys == bins.smokeMachines.Keys
    ensures (forall k :: 0 <= k < |entries| ==> |entries[k]| == 0 || entries[k][0] != Str("buffer")) ==> r.buffering == buffering
    decreases |entries|
  {
    if entries == [] then Progress(bins, buffering, false)
    else
      match ApplyEntry(bins, buffering, entries[0])
      case None => Progress(bins, buffering, true)
      case Some((b, v)) => ApplyEntries(b, v, entries[1..])
  }

  /** Every volume's `step()` is called once (src/director.py:149-153). */
  function StepVolumes(volumeSteps: map<string, nat>): (r: map<string, nat>)
    ensures r.Keys == volumeSteps.Keys
    ensures forall k :: k in r ==> r[k] == volumeSteps[k] + 1
  {
    map k | k in volumeSteps :: volumeSteps[k] + 1
  }

  /** The state `step` reads and writes. */
  datatype Snapshot = Snapshot(objectBins: Bins, steps: seq<seq<seq<Value>>>, stepFrame: int, buffering: Value)

  datatype Ticked = Ticked(after: Snapshot, raised: bool)

  /** One call of `step` (src/director.py:148-279). The volumes step first. A buffering
      count that is not a number cannot be compared with 0 (TypeError). A positive count
      goes down by one, and if it is still positive the tick ends there. Otherwise the
      current frame `steps[stepFrame]` is applied (IndexError when there is none) and
      the frame moves on, modulo the number of frames; a frame that raises leaves
      `stepFrame` where it was. */
  function Tick(s: Snapshot): (r: Ticked)
    ensures r.after.steps == s.steps
  {
    var bins := s.objectBins.(volumeSteps := StepVolumes(s.objectBins.volumeSteps));
    if !s.buffering.Num? then Ticked(s.(objectBins := bins), true)
    else
      var count := if s.buffering.n > 0.0 then s.buffering.n - 1.0 else s.buffering.n;
      if count > 0.0 then Ticked(s.(objectBins := bins, buffering := Num(count)), false)
      else
        match PyIndex(s.steps, s.stepFrame)
        case None => Ticked(s.(objectBins := bins, buffering := Num(count)), true)
        case Some(thisStep) =>
          var p := ApplyEntries(bins, Num(count), thisStep);
          if p.raised then Ticked(Snapshot(p.bins, s.steps, s.stepFrame, p.buffering), true)
          else Ticked(Snapshot(p.bins, s.steps, (s.stepFrame + 1) % |s.steps|, p.buffering), false)
  }

  /** Every tick steps every volume exactly once, buffered, raising or not, and keeps
      the set of objects (src/director.py:149-153). */
  lemma TickStepsVolumes(s: Snapshot)
    ensures Tick(s).after.objectBins.volumeSteps == StepVolumes(s.objectBins.volumeSteps)
    ensures Tick(s).after.objectBins.lights.Keys == s.objectBins.lights.Keys
    ensures Tick(s).after.objectBins.props.Keys == s.objectBins.props.Keys
    ensures Tick(s).after.objectBins.smokeMachines.Keys == s.objectBins.smokeMachines.Keys
  {
  }

  /** A buffering count above 1 only goes down by one: no object and not the frame
      changes (src/director.py:156-160). */
  lemma TickWhileBuffering(s: Snapshot, n: real)
    requires s.buffering == Num(n) && n > 1.0
    ensures !Tick(s).raised
    ensures Tick(s).after == s.(objectBins := s.objectBins.(volumeSteps := StepVolumes(s.objectBins.volumeSteps)),
                                buffering := Num(n - 1.0))
  {
  }

  /** A tick that is not held and does not raise moves to the next frame, looping
      (src/director.py:279); the frame is then a valid index. */
  lemma TickAdvances(s: Snapshot, n: real)
    requires s.buffering == Num(n) && n <= 1.0 && !Tick(s).raised
    ensures |s.steps| > 0
    ensures Tick(s).after.stepFrame == (s.stepFrame + 1) % |s.steps|
    ensures 0 <= Tick(s).after.stepFrame < |s.steps|
  {
  }

  /** A tick that raises leaves the frame where it was. */
  lemma TickRaisedKeepsFrame(s: Snapshot)
    requires Tick(s).raised
    ensures Tick(s).after.stepFrame == s.stepFrame
  {
  }

  /** The frame stays a valid index of `steps` from tick to tick. */
  lemma TickKeepsFrameInRange(s: Snapshot)
    requires 0 <= s.stepFrame < |s.steps|
    ensures 0 <= Tick(s).after.stepFrame < |Tick(s).after.steps|
  {
  }

  /** A choreography being played (src/director.py:17-279), once `parse` has filled its
      bins and frames. */
  class Choreography {
    var objectBins: Bins
    var steps: seq<seq<seq<Value>>>
    var stepFrame: int
    var buffering: Value

    function State(): Snapshot
      reads this
    {
      Snapshot(objectBins, steps, stepFrame, buffering)
    }

    /** The initial frame is 0 and the buffering count 1, so that the original state
        is shown for one tick (src/director.py:142-145). */
    constructor (objectBins: Bins, steps: seq<seq<seq<Value>>>)
      ensures State() == Snapshot(objectBins, steps, 0, Num(1.0))
    {
      this.objectBins := objectBins;
      this.steps := steps;
      this.stepFrame := 0;
      this.buffering := Num(1.0);
    }

    /** `step` (src/director.py:148-279). Returns whether Python raised; the state is the
        one it leaves. */
    method Step() returns (raised: bool)
      modifies this
      ensures Tick(old(State())) == Ticked(State(), raised)
    {
      objectBins := objectBins.(volumeSteps := StepVolumes(objectBins.volumeSteps));
      if !buffering.Num? {
        return true;
      }
      if buffering.n > 0.0 {
        buffering := Num(buffering.n - 1.0);
      }
      if buffering.n > 0.0 {
        return false;
      }
      var frame := PyIndex(steps, stepFrame);
      if frame.None? {
        return true;
      }
      var thisStep := frame.value;
      ghost var bins0, buffering0 := objectBins, buffering;
      for i := 0 to |thisStep|
        invariant steps == old(steps) && stepFrame == old(stepFrame)
        invariant ApplyEntries(bins0, buffering0, thisStep) == ApplyEntries(objectBins, buffering, thisStep[i..])
      {
        assert thisStep[i..][0] == thisStep[i] && thisStep[i..][1..] == thisStep[i + 1..];
        var next := ApplyEntry(objectBins, buffering, thisStep[i]);
        if next.None? {
          return true;
        }
        objectBins, buffering := next.value.0, next.value.1;
      }
      stepFrame := (stepFrame + 1) % |steps|;
      raised := false;
    }
  }

  // ---------------------------------------------------------------------------
  // Classifying the decoded objects (src/director.py:62-67)
  // ---------------------------------------------------------------------------

  /** `objectMapping` (src/director.py:29-35): object type to bin name. */
  const ObjectMapping: map<string, string> := map[
    "light" := "lights", "prop" := "props", "smokemachine" := "smokeMachines",
    "lightgroup" := "lightGroups", "smokemachinevolume" := "smokeMachineVolumes"]

  /** `intObjectBins` as `parse` starts it (src/director.py:55-61): every bin empty. */
  function EmptyBins(): (r: map<string, map<string, Value>>)
    ensures r.Keys == ObjectMapping.Values
    ensures forall b :: b in r ==> r[b] == map[]
  {
    map b | b in ObjectMapping.Values :: map[]
  }

  /** `obj["type"]`: `None` when `obj` is not an object (TypeError) or has no type
      (KeyError). */
  function TypeOf(obj: Value): Option<Value> {
    if obj.Obj? then Lookup(obj.members, "type") else None
  }

  /** An object whose type names a bin. */
  predicate Known(obj: Value) {
    TypeOf(obj).Some? && TypeOf(obj).value.Str? && TypeOf(obj).value.s in ObjectMapping
  }

  /** The bin a known object goes to. */
  function BinOf(obj: Value): string
    requires Known(obj)
  {
    ObjectMapping[TypeOf(obj).value.s]
  }

  /** The step of the loop for the object `key` (src/director.py:63-67). A known type
      puts the object in its bin; an unknown string type only prints; a type that is not
      a string raises (as a number it cannot be concatenated to the message, and a list
      or object cannot be looked up in a dict). */
  function ClassifyOne(bins: map<string, map<string, Value>>, key: string, obj: Value): (r: Option<map<string, map<string, Value>>>)
    requires ObjectMapping.Values <= bins.Keys
    ensures r.None? <==> !(TypeOf(obj).Some? && TypeOf(obj).value.Str?)
    ensures r.Some? ==> r.value.Keys == bins.Keys
  {
    match TypeOf(obj)
    case None => None
    case Some(t) =>
      if t.Str? && t.s in ObjectMapping then
        var b := ObjectMapping[t.s];
        Some(bins[b := bins[b][key := obj]])
      else if t.Str? then Some(bins)
      else None
  }

  /** The loop `for key in loadedJson["objects"]` over the members in document order. */
  function ClassifyFrom(bins: map<string, map<string, Value>>, objects: seq<(string, Value)>): (r: Option<map<string, map<string, Value>>>)
    requires ObjectMapping.Values <= bins.Keys
    ensures r.Some? ==> r.value.Keys == bins.Keys
    decreases |objects|
  {
    if objects == [] then Some(bins)
    else
      match ClassifyOne(bins, objects[0].0, objects[0].1)
      case None => None
      case Some(b) => ClassifyFrom(b, objects[1..])
  }

  /** The classification raises exactly when some object has no string type. */
  lemma {:induction false} ClassifyRaises(bins: map<string, map<string, Value>>, objects: seq<(string, Value)>)
    requires ObjectMapping.Values <= bins.Keys
    ensures ClassifyFrom(bins, objects).None? <==>
      exists k :: 0 <= k < |objects| && !(TypeOf(objects[k].1).Some? && TypeOf(objects[k].1).value.Str?)
    decreases |objects|
  {
    if objects != [] {
      match ClassifyOne(bins, objects[0].0, objects[0].1)
      case None =>
      case Some(b) =>
        ClassifyRaises(b, objects[1..]);
        if exists k :: 0 <= k < |objects| && !(TypeOf(objects[k].1).Some? && TypeOf(objects[k].1).value.Str?) {
          var k :| 0 <= k < |objects| && !(TypeOf(objects[k].1).Some? && TypeOf(objects[k].1).value.Str?);
          assert objects[1..][k - 1] == objects[k];
        }
    }
  }

  /** The members after the first one still have distinct names, none of them the
      first's. */
  lemma DistinctTail(objects: seq<(string, Value)>)
    requires objects != [] && DistinctKeys(objects)
    ensures DistinctKeys(objects[1..])
    ensures objects[0].0 !in Keys(objects[1..])
  {
    var rest := objects[1..];
    forall j, k | 0 <= j < k < |rest| ensures rest[j].0 != rest[k].0 {
      assert rest[j] == objects[j + 1] && rest[k] == objects[k + 1];
    }
    forall k | 0 <= k < |rest| ensures Keys(rest)[k] != objects[0].0 {
      assert rest[k] == objects[k + 1];
    }
  }

  /** An entry whose key no remaining object has is kept. */
  lemma {:induction false} ClassifyKeeps(bins: map<string, map<string, Value>>, objects: seq<(string, Value)>, b: string, key: string)
    requires ObjectMapping.Values <= bins.Keys && ClassifyFrom(bins, objects).Some?
    requires b in bins && key in bins[b] && key !in Keys(objects)
    ensures key in ClassifyFrom(bins, objects).value[b]
    ensures ClassifyFrom(bins, objects).value[b][key] == bins[b][key]
    decreases |objects|
  {
    if objects != [] {
      var rest := objects[1..];
      assert key != Keys(objects)[0];
      assert key !in Keys(rest) by {
        forall k | 0 <= k < |rest| ensures Keys(rest)[k] != key {
          assert Keys(objects)[k + 1] == Keys(rest)[k];
        }
      }
      ClassifyKeeps(ClassifyOne(bins, objects[0].0, objects[0].1).value, rest, b, key);
    }
  }

  /** Each known object ends up in its bin under its key. */
  lemma {:induction false} ClassifyPuts(bins: map<string, map<string, Value>>, objects: seq<(string, Value)>, k: int)
    requires ObjectMapping.Values <= bins.Keys && DistinctKeys(objects) && ClassifyFrom(bins, objects).Some?
    requires 0 <= k < |objects| && Known(objects[k].1)
    ensures objects[k].0 in ClassifyFrom(bins, objects).value[BinOf(objects[k].1)]
    ensures ClassifyFrom(bins, objects).value[BinOf(objects[k].1)][objects[k].0] == objects[k].1
    decreases |objects|
  {
    var b1 := ClassifyOne(bins, objects[0].0, objects[0].1).value;
    DistinctTail(objects);
    if k == 0 {
      ClassifyKeeps(b1, objects[1..], BinOf(objects[0].1), objects[0].0);
    } else {
      assert objects[k] == objects[1..][k - 1];
      ClassifyPuts(b1, objects[1..], k - 1);
    }
  }

  /** Every entry of a bin was put there by a known object of that bin's type, or was
      there before. */
  lemma {:induction false} ClassifyOrigin(bins: map<string, map<string, Value>>, objects: seq<(string, Value)>, b: string, key: string)
    requires ObjectMapping.Values <= bins.Keys && ClassifyFrom(bins, objects).Some?
    requires b in bins && key in ClassifyFrom(bins, objects).value[b]
    ensures (exists k :: 0 <= k < |objects| && objects[k].0 == key && Known(objects[k].1) && BinOf(objects[k].1) == b
                         && ClassifyFrom(bins, objects).value[b][key] == objects[k].1)
            || (key in bins[b] && ClassifyFrom(bins, objects).value[b][key] == bins[b][key])
    decreases |objects|
  {
    if objects != [] {
      var rest := objects[1..];
      var b1 := ClassifyOne(bins, objects[0].0, objects[0].1).value;
      var r := ClassifyFrom(bins, objects).value;
      assert r == ClassifyFrom(b1, rest).value;
      ClassifyOrigin(b1, rest, b, key);
      if exists k :: 0 <= k < |rest| && rest[k].0 == key && Known(rest[k].1) && BinOf(rest[k].1) == b && r[b][key] == rest[k].1 {
        var k :| 0 <= k < |rest| && rest[k].0 == key && Known(rest[k].1) && BinOf(rest[k].1) == b && r[b][key] == rest[k].1;
        assert objects[k + 1] == rest[k];
      } else if Known(objects[0].1) && BinOf(objects[0].1) == b && objects[0].0 == key {
        assert r[b][key] == objects[0].1;
      }
    }
  }

  /** The classification loop of `parse` (src/director.py:62-67), starting from empty
      bins. `None` when it raises. */
  method Classify(objects: seq<(string, Value)>) returns (intObjectBins: Option<map<string, map<string, Value>>>)
    ensures intObjectBins == ClassifyFrom(EmptyBins(), objects)
  {
    var bins := EmptyBins();
    for i := 0 to |objects|
      invariant bins.Keys == ObjectMapping.Values
      invariant ClassifyFrom(EmptyBins(), objects) == ClassifyFrom(bins, objects[i..])
    {
      assert objects[i..][0] == objects[i] && objects[i..][1..] == objects[i + 1..];
      var (key, obj) := objects[i];
      var next := ClassifyOne(bins, key, obj);
      if next.None? {
        return None;
      }
      bins := next.value;
    }
    assert objects[|objects|..] == [];
    return Some(bins);
  }

  /** After a classification that does not raise, every known object sits in the bin
      `objectMapping[type][1]` under its key. */
  lemma ClassifyPlacesKnown(objects: seq<(string, Value)>)
    requires DistinctKeys(objects) && ClassifyFrom(EmptyBins(), objects).Some?
    ensures ClassifyFrom(EmptyBins(), objects).value.Keys == ObjectMapping.Values
    ensures forall k :: 0 <= k < |objects| && Known(objects[k].1) ==>
      objects[k].0 in ClassifyFrom(EmptyBins(), objects).value[BinOf(objects[k].1)]
      && ClassifyFrom(EmptyBins(), objects).value[BinOf(objects[k].1)][objects[k].0] == objects[k].1
  {
    forall k | 0 <= k < |objects| && Known(objects[k].1)
      ensures objects[k].0 in ClassifyFrom(EmptyBins(), objects).value[BinOf(objects[k].1)]
      ensures ClassifyFrom(EmptyBins(), objects).value[BinOf(objects[k].1)][objects[k].0] == objects[k].1
    {
      ClassifyPuts(EmptyBins(), objects, k);
    }
  }

  /** Every entry of a bin comes from an object of that bin's type, under the object's
      key; objects of unknown type are dropped. */
  lemma ClassifyPlacesOnlyKnown(objects: seq<(string, Value)>)
    requires ClassifyFrom(EmptyBins(), objects).Some?
    ensures forall b, key :: b in ClassifyFrom(EmptyBins(), objects).value && key in ClassifyFrom(EmptyBins(), objects).value[b] ==>
      exists k :: 0 <= k < |objects| && objects[k].0 == key && Known(objects[k].1) && BinOf(objects[k].1) == b
                  && ClassifyFrom(EmptyBins(), objects).value[b][key] == objects[k].1
  {
    var r := ClassifyFrom(EmptyBins(), objects).value;
    forall b, key | b in r && key in r[b]
      ensures exists k :: 0 <= k < |objects| && objects[k].0 == key && Known(objects[k].1) && BinOf(objects[k].1) == b
                          && r[b][key] == objects[k].1
    {
      ClassifyOrigin(EmptyBins(), objects, b, key);
    }
  }
}
