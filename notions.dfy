/** The entities of the classification registry and the pure parts of its
    operations: how a value is evaluated from its frame's rules, how the
    per-object dictionaries of a perceptive frame and of an instance are
    built, and the read-side resolvers. */
module Notions {
  import opened PyObjects
  import opened Dicts
  import opened Enums

  /** A converter turns the argument dictionary into a property; a
      discriminator turns a property into a classification. Both are
      caller-supplied code, so either may raise. */
  type Converter = Dict<string> -> Result<Obj>
  type Discriminator = Obj -> Result<Obj>

  /** The composite discriminator of a perceptive frame: it receives the
      frame-name -> frame dictionary and the frame-name -> value dictionary. */
  type CompositeDiscriminator = (Dict<NotionFrame>, Dict<NotionValue>) -> Result<Obj>

  datatype NotionFrame = NotionFrame(
    name: string,
    notionType: NotionType,
    unit: NotionUnit,
    converterCode: string,
    converter: Converter,
    discriminatorCode: string,
    discriminator: Discriminator)

  datatype NotionValue = NotionValue(
    id: string,
    frame: NotionFrame,
    property: Obj,
    classification: Obj)

  datatype PerceptiveFrame = PerceptiveFrame(
    name: string,
    notionFrames: Dict<NotionFrame>,
    discriminatorCode: string,
    discriminator: CompositeDiscriminator)

  /** `id` is the one-element tuple the constructor stores. */
  datatype PerceptiveFrameInstance = PerceptiveFrameInstance(
    id: seq<string>,
    perceptiveFrame: PerceptiveFrame,
    notionValues: Dict<NotionValue>)

  /** One `{key, value}` element of the `args` list of `createNotionValue`. */
  datatype Arg = Arg(key: string, value: string)

  /** A value's classification is what its frame's discriminator makes of its
      property. */
  ghost predicate Evaluated(v: NotionValue) {
    v.frame.discriminator(v.property) == Ok(v.classification)
  }

  /** Every frame is stored under its own name. */
  ghost predicate KeyedByName(frames: Dict<NotionFrame>) {
    forall n :: n in frames.entries ==> frames.entries[n].name == n
  }

  /** Every value is stored under the name of its own frame, and is evaluated. */
  ghost predicate KeyedByFrameName(values: Dict<NotionValue>) {
    forall n :: n in values.entries ==>
      values.entries[n].frame.name == n && Evaluated(values.entries[n])
  }

  // ---------------------------------------------------------------------
  // Values: eager evaluation and the argument list
  // ---------------------------------------------------------------------

  /** The `NotionValue` constructor's computation: the property is the
      converter applied to the arguments, the classification is the
      discriminator applied to the property; the first rule that raises
      decides the error. */
  function EvaluateNotionValue(id: string, frame: NotionFrame, args: Dict<string>): (r: Result<NotionValue>)
    ensures r.Ok? <==> frame.converter(args).Ok? && frame.discriminator(frame.converter(args).value).Ok?
    ensures r.Ok? ==> && r.value.id == id && r.value.frame == frame
                      && r.value.property == frame.converter(args).value
                      && Evaluated(r.value)
    ensures frame.converter(args).Err? ==> r == Err(frame.converter(args).error)
    ensures frame.converter(args).Ok? && frame.discriminator(frame.converter(args).value).Err? ==>
              r == Err(frame.discriminator(frame.converter(args).value).error)
  {
    match frame.converter(args)
    case Err(e) => Err(e)
    case Ok(property) =>
      match frame.discriminator(property)
      case Err(e) => Err(e)
      case Ok(classification) => Ok(NotionValue(id, frame, property, classification))
  }

  /** `[arg['key'] for arg in args]` */
  function ArgKeys(args: seq<Arg>): (ks: seq<string>)
    ensures |ks| == |args| && forall i :: 0 <= i < |args| ==> ks[i] == args[i].key
  {
    seq(|args|, i requires 0 <= i < |args| => args[i].key)
  }

  /** `[arg['value'] for arg in args]` */
  function ArgValues(args: seq<Arg>): (vs: seq<string>)
    ensures |vs| == |args| && forall i :: 0 <= i < |args| ==> vs[i] == args[i].value
  {
    seq(|args|, i requires 0 <= i < |args| => args[i].value)
  }

  /** The argument dictionary that `createNotionValue` builds from its list:
      a well-formed dictionary over exactly the keys of the list. */
  function FoldArgs(args: seq<Arg>): (d: Dict<string>)
    ensures d.Valid()
    ensures forall k :: k in d.entries <==> k in ArgKeys(args)
  {
    var ps := Zip(ArgKeys(args), ArgValues(args));
    assert KeysOf(ps) == ArgKeys(args);
    FromPairsKeys(ps);
    FromPairs(ps)
  }

  /** `args[i]` is the last argument with its key. */
  ghost predicate LastArg(args: seq<Arg>, i: int) {
    && 0 <= i < |args|
    && forall j :: i < j < |args| ==> args[j].key != args[i].key
  }

  /** Folding the argument list gives exactly the keys of the list, each bound
      to the value of its last occurrence, in order of first occurrence. */
  lemma FoldArgsSpec(args: seq<Arg>)
    ensures FoldArgs(args).Valid()
    ensures forall k :: k in FoldArgs(args).entries <==> k in ArgKeys(args)
    ensures forall i :: LastArg(args, i) ==> FoldArgs(args).entries[args[i].key] == args[i].value
    ensures forall k :: k in FoldArgs(args).entries ==>
              exists i :: LastArg(args, i) && args[i].key == k
    ensures InFirstOccurrenceOrder(FoldArgs(args).keys, ArgKeys(args))
  {
    var ps := Zip(ArgKeys(args), ArgValues(args));
    assert KeysOf(ps) == ArgKeys(args);
    FromPairsKeys(ps);
    FromPairsOrder(ps);
    forall i | LastArg(args, i) ensures FoldArgs(args).entries[args[i].key] == args[i].value {
      assert LastOccurrence(ps, i);
      FromPairsLastWins(ps, i);
    }
    forall k | k in FoldArgs(args).entries ensures exists i :: LastArg(args, i) && args[i].key == k {
      FromPairsFrom(ps, k);
      var i :| LastOccurrence(ps, i) && ps[i].0 == k;
      assert LastArg(args, i);
    }
  }

  // ---------------------------------------------------------------------
  // Perceptive frames
  // ---------------------------------------------------------------------

  /** `[NotionFrame.get_notion_frame(n) for n in names]`: the frames in list
      order; the first unknown name raises `KeyError`. */
  function LookupFrames(frames: Dict<NotionFrame>, names: seq<string>): (r: Result<seq<NotionFrame>>)
    ensures r.Ok? <==> forall i :: 0 <= i < |names| ==> names[i] in frames.entries
    ensures r.Ok? ==> |r.value| == |names|
    ensures r.Ok? ==> forall i :: 0 <= i < |names| ==> r.value[i] == frames.entries[names[i]]
    ensures r.Err? ==> exists i :: && 0 <= i < |names| && names[i] !in frames.entries
                                   && (forall j :: 0 <= j < i ==> names[j] in frames.entries)
                                   && r.error == KeyError(names[i])
  {
    if names == [] then Ok([])
    else
      match frames.Index(names[0])
      case Err(e) => Err(e)
      case Ok(frame) =>
        match LookupFrames(frames, names[1..])
        case Err(e) =>
          assert forall j :: 1 <= j < |names| ==> names[j] == names[1..][j - 1];
          Err(e)
        case Ok(rest) => Ok([frame] + rest)
  }

  /** `[nf.name for nf in nfs]` */
  function FrameNames(nfs: seq<NotionFrame>): (ns: seq<string>)
    ensures |ns| == |nfs| && forall i :: 0 <= i < |nfs| ==> ns[i] == nfs[i].name
  {
    seq(|nfs|, i requires 0 <= i < |nfs| => nfs[i].name)
  }

  /** The `PerceptiveFrame` constructor's computation: look every name up,
      then key the frames found by their own names. */
  function BuildPerceptiveFrame(
    frames: Dict<NotionFrame>, name: string, names: seq<string>,
    discriminatorCode: string, discriminator: CompositeDiscriminator): (r: Result<PerceptiveFrame>)
    ensures r.Ok? <==> forall i :: 0 <= i < |names| ==> names[i] in frames.entries
    ensures r.Err? ==> exists i :: 0 <= i < |names| && r.error == KeyError(names[i])
    ensures r.Ok? ==> && r.value.name == name && r.value.discriminatorCode == discriminatorCode
                      && r.value.discriminator == discriminator && r.value.notionFrames.Valid()
  {
    match LookupFrames(frames, names)
    case Err(e) => Err(e)
    case Ok(nfs) =>
      Ok(PerceptiveFrame(name, FromPairs(Zip(FrameNames(nfs), nfs)), discriminatorCode, discriminator))
  }

  /** A perceptive frame is built exactly when every name is registered;
      otherwise the first unknown name raises `KeyError`. Its dictionary has
      one entry per distinct name, bound to the frame registered under that
      name, in order of first occurrence. */
  lemma PerceptiveFrameSpec(
    frames: Dict<NotionFrame>, name: string, names: seq<string>,
    discriminatorCode: string, discriminator: CompositeDiscriminator)
    requires KeyedByName(frames)
    ensures var r := BuildPerceptiveFrame(frames, name, names, discriminatorCode, discriminator);
      && (r.Ok? <==> forall i :: 0 <= i < |names| ==> names[i] in frames.entries)
      && (r.Err? ==> exists i :: && 0 <= i < |names| && names[i] !in frames.entries
                                  && (forall j :: 0 <= j < i ==> names[j] in frames.entries)
                                  && r.error == KeyError(names[i]))
      && (r.Ok? ==> && r.value.name == name
                    && r.value.discriminatorCode == discriminatorCode
                    && r.value.discriminator == discriminator
                    && r.value.notionFrames.Valid()
                    && (forall n :: n in r.value.notionFrames.entries <==> n in names)
                    && (forall n :: n in r.value.notionFrames.entries ==>
                          r.value.notionFrames.entries[n] == frames.entries[n])
                    && KeyedByName(r.value.notionFrames)
                    && InFirstOccurrenceOrder(r.value.notionFrames.keys, names))
  {
    var lookup := LookupFrames(frames, names);
    if lookup.Ok? {
      var nfs := lookup.value;
      var ps := Zip(FrameNames(nfs), nfs);
      var d := FromPairs(ps);
      assert KeysOf(ps) == names;
      FromPairsKeys(ps);
      FromPairsOrder(ps);
      forall n | n in d.entries ensures d.entries[n] == frames.entries[n] {
        FromPairsFrom(ps, n);
      }
    }
  }

  // ---------------------------------------------------------------------
  // Perceptive frame instances
  // ---------------------------------------------------------------------

  /** `[NotionValue.get_notion_value(id) for id in ids]`: `None` for each
      unknown id. */
  function LookupValues(values: Dict<NotionValue>, ids: seq<string>): (nvs: seq<Option<NotionValue>>)
    ensures |nvs| == |ids| && forall i :: 0 <= i < |ids| ==> nvs[i] == values.Get(ids[i])
  {
    seq(|ids|, i requires 0 <= i < |ids| => values.Get(ids[i]))
  }

  /** `[nv.frame.name for nv in nvs]`: reading `frame` on a `None` raises
      `AttributeError`. */
  function ValueFrameNames(nvs: seq<Option<NotionValue>>): (r: Result<seq<string>>)
    ensures r.Ok? <==> forall i :: 0 <= i < |nvs| ==> nvs[i].Some?
    ensures r.Ok? ==> |r.value| == |nvs|
    ensures r.Ok? ==>
              forall i :: 0 <= i < |nvs| ==> r.value[i] == nvs[i].value.frame.name
    ensures r.Err? ==> r.error == AttributeError("frame")
  {
    if nvs == [] then Ok([])
    else
      match nvs[0]
      case None => Err(AttributeError("frame"))
      case Some(nv) =>
        match ValueFrameNames(nvs[1..])
        case Err(e) => Err(e)
        case Ok(rest) => Ok([nv.frame.name] + rest)
  }

  /** The values of a list of options known to be all present. */
  function Present(nvs: seq<Option<NotionValue>>): (vs: seq<NotionValue>)
    requires forall i :: 0 <= i < |nvs| ==> nvs[i].Some?
    ensures |vs| == |nvs| && forall i :: 0 <= i < |nvs| ==> nvs[i] == Some(vs[i])
  {
    seq(|nvs|, i requires 0 <= i < |nvs| => nvs[i].value)
  }

  /** The `PerceptiveFrameInstance` constructor's computation: look the
      perceptive frame up (`KeyError`), look every value up, take each value's
      frame name (`AttributeError` on an unknown id), then key the values by
      those names. */
  function BuildInstance(
    perceptiveFrames: Dict<PerceptiveFrame>, values: Dict<NotionValue>,
    id: string, perceptiveFrameName: string, ids: seq<string>): (r: Result<PerceptiveFrameInstance>)
    ensures r.Ok? <==> perceptiveFrameName in perceptiveFrames.entries &&
                       forall i :: 0 <= i < |ids| ==> ids[i] in values.entries
    ensures perceptiveFrameName !in perceptiveFrames.entries ==> r == Err(KeyError(perceptiveFrameName))
    ensures perceptiveFrameName in perceptiveFrames.entries && r.Err? ==> r.error == AttributeError("frame")
    ensures r.Ok? ==> && r.value.id == [id]
                      && r.value.perceptiveFrame == perceptiveFrames.entries[perceptiveFrameName]
                      && r.value.notionValues.Valid()
  {
    match perceptiveFrames.Index(perceptiveFrameName)
    case Err(e) => Err(e)
    case Ok(pf) =>
      var nvs := LookupValues(values, ids);
      match ValueFrameNames(nvs)
      case Err(e) => Err(e)
      case Ok(keys) => Ok(PerceptiveFrameInstance([id], pf, FromPairs(Zip(keys, Present(nvs)))))
  }

  /** The values registered under `ids`, in list order. */
  ghost function Bound(values: Dict<NotionValue>, ids: seq<string>): (vs: seq<NotionValue>)
    requires forall i :: 0 <= i < |ids| ==> ids[i] in values.entries
    ensures |vs| == |ids| && forall i :: 0 <= i < |ids| ==> vs[i] == values.entries[ids[i]]
  {
    seq(|ids|, i requires 0 <= i < |ids| => values.entries[ids[i]])
  }

  /** The frame names of a list of values, in list order. */
  ghost function FrameNamesOf(vs: seq<NotionValue>): (ns: seq<string>)
    ensures |ns| == |vs| && forall i :: 0 <= i < |vs| ==> ns[i] == vs[i].frame.name
  {
    seq(|vs|, i requires 0 <= i < |vs| => vs[i].frame.name)
  }

  /** `vs[i]` is the last value with its frame's name. */
  ghost predicate LastOfFrame(vs: seq<NotionValue>, i: int) {
    && 0 <= i < |vs|
    && forall j :: i < j < |vs| ==> vs[j].frame.name != vs[i].frame.name
  }

  /** Keying a list of values by their frames' names keeps one entry per frame
      name, bound to the last value of that frame, in order of first
      occurrence; each entry is one of the values and sits under its own
      frame's name. */
  lemma KeyByFrameSpec(vs: seq<NotionValue>)
    ensures var d := FromPairs(Zip(FrameNamesOf(vs), vs));
      && (forall n :: n in d.entries <==> n in FrameNamesOf(vs))
      && (forall i :: LastOfFrame(vs, i) ==> d.entries[vs[i].frame.name] == vs[i])
      && ((forall i :: 0 <= i < |vs| ==> Evaluated(vs[i])) ==> KeyedByFrameName(d))
      && InFirstOccurrenceOrder(d.keys, FrameNamesOf(vs))
  {
    var ps := Zip(FrameNamesOf(vs), vs);
    var d := FromPairs(ps);
    assert KeysOf(ps) == FrameNamesOf(vs);
    FromPairsKeys(ps);
    FromPairsOrder(ps);
    forall i | LastOfFrame(vs, i) ensures d.entries[vs[i].frame.name] == vs[i] {
      assert LastOccurrence(ps, i);
      FromPairsLastWins(ps, i);
    }
    if forall i :: 0 <= i < |vs| ==> Evaluated(vs[i]) {
      forall n | n in d.entries ensures d.entries[n].frame.name == n && Evaluated(d.entries[n]) {
        FromPairsFrom(ps, n);
      }
    }
  }

  /** An instance is built exactly when its perceptive frame and every value
      id are registered. An unknown perceptive frame raises `KeyError` first;
      an unknown value id then raises `AttributeError`. The instance stores
      its id as a one-element tuple, which the `id` resolver unwraps to the id
      supplied, and holds the perceptive frame registered under the name. */
  lemma InstanceSpec(
    perceptiveFrames: Dict<PerceptiveFrame>, values: Dict<NotionValue>,
    id: string, perceptiveFrameName: string, ids: seq<string>)
    ensures var r := BuildInstance(perceptiveFrames, values, id, perceptiveFrameName, ids);
      && (r.Ok? <==> perceptiveFrameName in perceptiveFrames.entries &&
                     forall i :: 0 <= i < |ids| ==> ids[i] in values.entries)
      && (perceptiveFrameName !in perceptiveFrames.entries ==> r == Err(KeyError(perceptiveFrameName)))
      && (perceptiveFrameName in perceptiveFrames.entries && r.Err? ==> r.error == AttributeError("frame"))
      && (r.Ok? ==> && r.value.id == [id]
                    && InstanceId(r.value) == Ok(id)
                    && r.value.perceptiveFrame == perceptiveFrames.entries[perceptiveFrameName]
                    && r.value.notionValues == FromPairs(Zip(FrameNamesOf(Bound(values, ids)), Bound(values, ids))))
  {
    var r := BuildInstance(perceptiveFrames, values, id, perceptiveFrameName, ids);
    if r.Ok? {
      var nvs := LookupValues(values, ids);
      var vs := Bound(values, ids);
      assert Present(nvs) == vs;
      assert ValueFrameNames(nvs).value == FrameNamesOf(vs);
    }
  }

  /** The values an instance holds: one per frame name among the supplied
      values, in order of first occurrence, each the last supplied value of
      that frame, each stored under its own frame's name and carrying its
      eagerly computed classification. */
  lemma InstanceValuesSpec(
    perceptiveFrames: Dict<PerceptiveFrame>, values: Dict<NotionValue>,
    id: string, perceptiveFrameName: string, ids: seq<string>)
    requires forall k :: k in values.entries ==> Evaluated(values.entries[k])
    requires perceptiveFrameName in perceptiveFrames.entries
    requires forall i :: 0 <= i < |ids| ==> ids[i] in values.entries
    ensures var r := BuildInstance(perceptiveFrames, values, id, perceptiveFrameName, ids);
      var vs := Bound(values, ids);
      && r.Ok?
      && r.value.notionValues.Valid()
      && KeyedByFrameName(r.value.notionValues)
      && (forall n :: n in r.value.notionValues.entries <==> n in FrameNamesOf(vs))
      && (forall i :: LastOfFrame(vs, i) ==> r.value.notionValues.entries[vs[i].frame.name] == vs[i])
      && InFirstOccurrenceOrder(r.value.notionValues.keys, FrameNamesOf(vs))
  {
    InstanceSpec(perceptiveFrames, values, id, perceptiveFrameName, ids);
    KeyByFrameSpec(Bound(values, ids));
  }

  // ---------------------------------------------------------------------
  // Read-side resolvers
  // ---------------------------------------------------------------------

  /** The instance `id` resolver: element 0 of the stored tuple. */
  function InstanceId(inst: PerceptiveFrameInstance): (r: Result<string>)
    ensures r.Ok? <==> |inst.id| > 0
    ensures r.Ok? ==> r.value == inst.id[0]
    ensures r.Err? ==> r.error == IndexError
  {
    if |inst.id| == 0 then Err(IndexError) else Ok(inst.id[0])
  }

  /** The frame-name -> frame dictionary the classification resolver builds
      from the bound values: their keys zipped with their frames. */
  function FramesOf(vs: Dict<NotionValue>): (fs: Dict<NotionFrame>)
    requires vs.Valid()
    ensures fs.Valid() && fs.keys == vs.keys
  {
    var ps := Zip(vs.keys, ValueFrames(vs.Values()));
    assert KeysOf(ps) == vs.keys;
    FromPairsDistinct(ps);
    FromPairs(ps)
  }

  /** `[nv.frame for nv in values]` */
  function ValueFrames(vs: seq<NotionValue>): (fs: seq<NotionFrame>)
    ensures |fs| == |vs| && forall i :: 0 <= i < |vs| ==> fs[i] == vs[i].frame
  {
    seq(|vs|, i requires 0 <= i < |vs| => vs[i].frame)
  }

  /** The frames dictionary has exactly the keys of the values dictionary, in
      the same order, each bound to that value's frame. */
  lemma FramesOfSpec(vs: Dict<NotionValue>)
    requires vs.Valid()
    ensures FramesOf(vs).keys == vs.keys
    ensures forall k :: k in FramesOf(vs).entries <==> k in vs.entries
    ensures forall k :: k in vs.entries ==> FramesOf(vs).entries[k] == vs.entries[k].frame
  {
    var ps := Zip(vs.keys, ValueFrames(vs.Values()));
    assert KeysOf(ps) == vs.keys;
    FromPairsDistinct(ps);
    FromPairsKeys(ps);
    forall k | k in vs.entries ensures FramesOf(vs).entries[k] == vs.entries[k].frame {
      var i :| 0 <= i < |vs.keys| && vs.keys[i] == k;
      assert ps[i] == (k, vs.entries[k].frame);
    }
  }

  /** The same, as one dictionary: the frames dictionary is the values
      dictionary with every value replaced by its frame. */
  lemma FramesOfIsFrameMap(vs: Dict<NotionValue>)
    requires vs.Valid()
    ensures FramesOf(vs) == Dict(vs.keys, map k | k in vs.entries :: vs.entries[k].frame)
  {
    FramesOfSpec(vs);
    var m := map k | k in vs.entries :: vs.entries[k].frame;
    assert FramesOf(vs).entries == m;
  }

  /** The instance `classification` resolver: the composite discriminator is
      run afresh over the frames and the values the instance holds, and the
      `name` of its result is returned. A rule error propagates; a result
      that is not an enum member has no `name`. */
  function Classification(inst: PerceptiveFrameInstance): (r: Result<string>)
    requires inst.notionValues.Valid()
    ensures var c := inst.perceptiveFrame.discriminator(FramesOf(inst.notionValues), inst.notionValues);
      && (r.Ok? <==> c.Ok? && c.value.Member?)
      && (r.Ok? ==> Display(c.value) == Text(r.value))
      && (c.Err? ==> r == Err(c.error))
  {
    match inst.perceptiveFrame.discriminator(FramesOf(inst.notionValues), inst.notionValues)
    case Err(e) => Err(e)
    case Ok(o) => NameOf(o)
  }

  /** Classifying an instance is the composite discriminator applied to the
      values it holds and, under the same keys, to their frames. */
  lemma ClassificationByFrames(inst: PerceptiveFrameInstance)
    requires inst.notionValues.Valid()
    ensures var vs := inst.notionValues;
      var c := inst.perceptiveFrame.discriminator(Dict(vs.keys, map k | k in vs.entries :: vs.entries[k].frame), vs);
      Classification(inst) == (if c.Ok? then NameOf(c.value) else Err(c.error))
  {
    FramesOfIsFrameMap(inst.notionValues);
  }
}
