/** The four process-wide tables (`NotionFrame.frames`, `NotionValue.values`,
    `PerceptiveFrame.frames`, `PerceptiveFrameInstance.values`) as the fields
    of one registry object, the four constructors as the methods that write
    them, and the getters and list resolvers that read them. */
module Tables {
  import opened PyObjects
  import opened Dicts
  import opened Enums
  import opened Notions

  class Registry {
    var notionFrames: Dict<NotionFrame>
    var notionValues: Dict<NotionValue>
    var perceptiveFrames: Dict<PerceptiveFrame>
    var instances: Dict<PerceptiveFrameInstance>

    /** Every table is a well-formed dict; frames are stored under their own
        names, values and instances under their own ids; stored values carry
        the classification their frame's discriminator gave their property;
        the per-object dicts are keyed by frame name. */
    ghost predicate Valid()
      reads this
    {
      && notionFrames.Valid() && notionValues.Valid()
      && perceptiveFrames.Valid() && instances.Valid()
      && KeyedByName(notionFrames)
      && (forall id :: id in notionValues.entries ==>
            notionValues.entries[id].id == id && Evaluated(notionValues.entries[id]))
      && (forall n :: n in perceptiveFrames.entries ==>
            && perceptiveFrames.entries[n].name == n
            && perceptiveFrames.entries[n].notionFrames.Valid()
            && KeyedByName(perceptiveFrames.entries[n].notionFrames))
      && (forall id :: id in instances.entries ==>
            && instances.entries[id].id == [id]
            && instances.entries[id].notionValues.Valid()
            && KeyedByFrameName(instances.entries[id].notionValues))
    }

    /** The tables as the module is first imported: all empty. */
    constructor ()
      ensures Valid()
      ensures notionFrames == Empty() && notionValues == Empty()
      ensures perceptiveFrames == Empty() && instances == Empty()
    {
      notionFrames, notionValues := Empty(), Empty();
      perceptiveFrames, instances := Empty(), Empty();
    }

    // -------------------------------------------------------------------
    // Getters
    // -------------------------------------------------------------------

    /** `NotionFrame.get_notion_frame`: `KeyError` on an unknown name. */
    function GetNotionFrame(name: string): (r: Result<NotionFrame>)
      reads this
      requires Valid()
      ensures r.Ok? <==> name in notionFrames.entries
      ensures r.Ok? ==> r.value == notionFrames.entries[name] && r.value.name == name
      ensures r.Err? ==> r.error == KeyError(name)
    {
      notionFrames.Index(name)
    }

    /** `NotionValue.get_notion_value`: `None` on an unknown id. */
    function GetNotionValue(id: string): (r: Option<NotionValue>)
      reads this
      requires Valid()
      ensures r.Some? <==> id in notionValues.entries
      ensures r.Some? ==> r.value == notionValues.entries[id] && r.value.id == id && Evaluated(r.value)
    {
      notionValues.Get(id)
    }

    /** `PerceptiveFrame.get_perceptive_frame`: `KeyError` on an unknown name. */
    function GetPerceptiveFrame(name: string): (r: Result<PerceptiveFrame>)
      reads this
      requires Valid()
      ensures r.Ok? <==> name in perceptiveFrames.entries
      ensures r.Ok? ==> r.value == perceptiveFrames.entries[name] && r.value.name == name
      ensures r.Err? ==> r.error == KeyError(name)
    {
      perceptiveFrames.Index(name)
    }

    /** `PerceptiveFrameInstance.get_perceptive_frame_instance_value`, as
        written: it looks the id up in the value table, not in the instance
        table. */
    function GetPerceptiveFrameInstanceValue(id: string): (r: Option<NotionValue>)
      reads this
      requires Valid()
      ensures r == GetNotionValue(id)
      ensures r.Some? <==> id in notionValues.entries
    {
      notionValues.Get(id)
    }

    // -------------------------------------------------------------------
    // List resolvers
    // -------------------------------------------------------------------

    /** `notionFrames`: one frame per registered name, in first-registration
        order, each the frame registered last under that name. */
    function ListNotionFrames(): (r: seq<NotionFrame>)
      reads this
      requires Valid()
      ensures |r| == |notionFrames.keys|
      ensures forall i :: 0 <= i < |r| ==>
                r[i] == notionFrames.entries[notionFrames.keys[i]] && r[i].name == notionFrames.keys[i]
      ensures forall n :: n in notionFrames.entries ==> exists i :: 0 <= i < |r| && r[i].name == n
    {
      notionFrames.Values()
    }

    /** `notionValues`: one value per registered id, in first-registration
        order. */
    function ListNotionValues(): (r: seq<NotionValue>)
      reads this
      requires Valid()
      ensures |r| == |notionValues.keys|
      ensures forall i :: 0 <= i < |r| ==>
                r[i] == notionValues.entries[notionValues.keys[i]] && r[i].id == notionValues.keys[i]
      ensures forall id :: id in notionValues.entries ==> exists i :: 0 <= i < |r| && r[i].id == id
    {
      notionValues.Values()
    }

    /** `perceptiveFrames`: one perceptive frame per registered name, in
        first-registration order. */
    function ListPerceptiveFrames(): (r: seq<PerceptiveFrame>)
      reads this
      requires Valid()
      ensures |r| == |perceptiveFrames.keys|
      ensures forall i :: 0 <= i < |r| ==>
                r[i] == perceptiveFrames.entries[perceptiveFrames.keys[i]] && r[i].name == perceptiveFrames.keys[i]
      ensures forall n :: n in perceptiveFrames.entries ==> exists i :: 0 <= i < |r| && r[i].name == n
    {
      perceptiveFrames.Values()
    }

    // -------------------------------------------------------------------
    // Constructors: the only writers of the tables
    // -------------------------------------------------------------------

    /** `NotionFrame(...)`: binds `name` to the new frame, replacing any frame
        registered earlier under it; nothing else changes, and values
        evaluated with an earlier frame keep their classification. */
    method NewNotionFrame(
      name: string, notionType: NotionType, unit: NotionUnit,
      converterCode: string, converter: Converter,
      discriminatorCode: string, discriminator: Discriminator)
      returns (frame: NotionFrame)
      requires Valid()
      modifies this
      ensures Valid()
      ensures frame == NotionFrame(name, notionType, unit, converterCode, converter, discriminatorCode, discriminator)
      ensures notionFrames == old(notionFrames).Put(name, frame)
      ensures GetNotionFrame(name) == Ok(frame)
      ensures forall n :: n != name ==> GetNotionFrame(n) == old(GetNotionFrame(n))
      ensures name !in old(notionFrames.entries) ==> ListNotionFrames() == old(ListNotionFrames()) + [frame]
      ensures notionValues == old(notionValues)
      ensures perceptiveFrames == old(perceptiveFrames) && instances == old(instances)
    {
      frame := NotionFrame(name, notionType, unit, converterCode, converter, discriminatorCode, discriminator);
      ValuesAfterPut(notionFrames, name, frame);
      notionFrames := notionFrames.Put(name, frame);
    }

    /** `NotionValue(id, frame, args)`: the property and the classification
        are computed once, here; the value is stored under `id` (replacing any
        earlier one) only when both rules succeed, and a rule's error leaves
        every table unchanged. */
    method NewNotionValue(id: string, frame: NotionFrame, args: Dict<string>)
      returns (r: Result<NotionValue>)
      requires Valid()
      modifies this
      ensures Valid()
      ensures r == EvaluateNotionValue(id, frame, args)
      ensures r.Ok? ==> notionValues == old(notionValues).Put(id, r.value)
      ensures r.Err? ==> notionValues == old(notionValues)
      ensures notionFrames == old(notionFrames)
      ensures perceptiveFrames == old(perceptiveFrames) && instances == old(instances)
    {
      r := EvaluateNotionValue(id, frame, args);
      if r.Ok? {
        notionValues := notionValues.Put(id, r.value);
      }
    }

    /** `createNotionValue`: an unknown frame name raises `KeyError` before
        anything is written; otherwise the argument list is folded into a dict
        and the value is constructed against the registered frame. */
    method CreateNotionValue(id: string, frameName: string, args: seq<Arg>)
      returns (r: Result<NotionValue>)
      requires Valid()
      modifies this
      ensures Valid()
      ensures frameName !in old(notionFrames.entries) ==>
                r == Err(KeyError(frameName)) && notionValues == old(notionValues)
      ensures frameName in old(notionFrames.entries) ==>
                r == EvaluateNotionValue(id, old(notionFrames.entries[frameName]), FoldArgs(args))
      ensures r.Ok? ==> r.value.frame.name == frameName && notionValues == old(notionValues).Put(id, r.value)
      ensures r.Err? ==> notionValues == old(notionValues)
      ensures notionFrames == old(notionFrames)
      ensures perceptiveFrames == old(perceptiveFrames) && instances == old(instances)
    {
      var found := GetNotionFrame(frameName);
      if found.Err? {
        return Err(found.error);
      }
      r := NewNotionValue(id, found.value, FoldArgs(args));
    }

    /** `PerceptiveFrame(...)`: every name is looked up first, so an unknown
        name raises `KeyError` before the table is written; otherwise the new
        perceptive frame is bound to `name`, replacing any earlier one. */
    method NewPerceptiveFrame(
      name: string, notionFrameNames: seq<string>,
      discriminatorCode: string, discriminator: CompositeDiscriminator)
      returns (r: Result<PerceptiveFrame>)
      requires Valid()
      modifies this
      ensures Valid()
      ensures r == BuildPerceptiveFrame(old(notionFrames), name, notionFrameNames, discriminatorCode, discriminator)
      ensures r.Ok? ==> perceptiveFrames == old(perceptiveFrames).Put(name, r.value)
      ensures r.Err? ==> perceptiveFrames == old(perceptiveFrames)
      ensures notionFrames == old(notionFrames) && notionValues == old(notionValues)
      ensures instances == old(instances)
    {
      r := BuildPerceptiveFrame(notionFrames, name, notionFrameNames, discriminatorCode, discriminator);
      PerceptiveFrameSpec(notionFrames, name, notionFrameNames, discriminatorCode, discriminator);
      if r.Ok? {
        perceptiveFrames := perceptiveFrames.Put(name, r.value);
      }
    }

    /** `PerceptiveFrameInstance(...)`: the perceptive frame and every value
        are looked up first, so an unknown name or id raises before the table
        is written; otherwise the new instance is bound to `id`, replacing any
        earlier one. */
    method NewPerceptiveFrameInstance(id: string, perceptiveFrameName: string, notionValueIds: seq<string>)
      returns (r: Result<PerceptiveFrameInstance>)
      requires Valid()
      modifies this
      ensures Valid()
      ensures r == BuildInstance(old(perceptiveFrames), old(notionValues), id, perceptiveFrameName, notionValueIds)
      ensures r.Ok? ==> instances == old(instances).Put(id, r.value)
      ensures r.Err? ==> instances == old(instances)
      ensures notionFrames == old(notionFrames) && notionValues == old(notionValues)
      ensures perceptiveFrames == old(perceptiveFrames)
    {
      r := BuildInstance(perceptiveFrames, notionValues, id, perceptiveFrameName, notionValueIds);
      InstanceSpec(perceptiveFrames, notionValues, id, perceptiveFrameName, notionValueIds);
      if r.Ok? {
        InstanceValuesSpec(perceptiveFrames, notionValues, id, perceptiveFrameName, notionValueIds);
        instances := instances.Put(id, r.value);
      }
    }
  }
}
