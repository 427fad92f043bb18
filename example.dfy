/** A client of the registry: the legal-status example. An age frame and a
    gender frame, a perceptive frame over both, and an instance that binds a
    child's age and a female gender is classified GIRL. Every assertion
    follows from the contracts of the registry's methods and lemmas. */
module LegalExample {
  import opened PyObjects
  import opened Dicts
  import opened Enums
  import opened Notions
  import opened Tables

  /** Every character of `s` is a decimal digit. */
  predicate AllDigits(s: string) {
    forall i :: 0 <= i < |s| ==> '0' <= s[i] <= '9'
  }

  /** The value of a string of decimal digits. */
  function Digits(s: string): nat
    requires AllDigits(s)
  {
    if s == [] then 0
    else Digits(s[..|s| - 1]) * 10 + (s[|s| - 1] as int - '0' as int)
  }

  /** `int(s)` on a string: an optional minus sign followed by at least one
      decimal digit; anything else raises `ValueError`. */
  function ParseInt(s: string): (r: Result<int>)
    ensures r.Ok? <==> (s != [] && AllDigits(s)) || (|s| > 1 && s[0] == '-' && AllDigits(s[1..]))
    ensures r.Ok? && s[0] != '-' ==> r.value == Digits(s)
    ensures r.Ok? && s[0] == '-' ==> r.value == -(Digits(s[1..]) as int)
    ensures r.Err? ==> r.error == RuleError("ValueError")
  {
    if s != [] && AllDigits(s) then Ok(Digits(s))
    else if |s| > 1 && s[0] == '-' && AllDigits(s[1..]) then Ok(-(Digits(s[1..]) as int))
    else Err(RuleError("ValueError"))
  }

  /** `lambda args: int(args['age'])` */
  function AgeConverter(args: Dict<string>): Result<Obj> {
    match args.Index("age")
    case Err(e) => Err(e)
    case Ok(s) =>
      match ParseInt(s)
      case Err(e) => Err(e)
      case Ok(n) => Ok(Number(n))
  }

  /** `lambda age: AgeClass.CHILD if age < 18 else AgeClass.ADULT` */
  function AgeDiscriminator(age: Obj): Result<Obj> {
    if !age.Number? then Err(RuleError("age is not a number"))
    else if age.number < 18 then Ok(CHILD.AsObj())
    else Ok(ADULT.AsObj())
  }

  /** `lambda args: Gender[args['gender']]` */
  function GenderConverter(args: Dict<string>): Result<Obj> {
    match args.Index("gender")
    case Err(e) => Err(e)
    case Ok(s) =>
      if s == "FEMALE" then Ok(FEMALE.AsObj())
      else if s == "MALE" then Ok(MALE.AsObj())
      else Err(KeyError(s))
  }

  /** `lambda gender: gender` */
  function GenderDiscriminator(gender: Obj): Result<Obj> {
    Ok(gender)
  }

  /** The composite rule: {CHILD, FEMALE} -> GIRL, {ADULT, FEMALE} -> WOMAN,
      {CHILD, MALE} -> BOY, {ADULT, MALE} -> MAN. */
  function Legal(frames: Dict<NotionFrame>, values: Dict<NotionValue>): Result<Obj> {
    match (values.Index("age_years"), values.Index("declared_gender"))
    case (Ok(age), Ok(gender)) =>
      var adult := age.classification == ADULT.AsObj();
      if gender.classification == FEMALE.AsObj() then Ok(if adult then WOMAN.AsObj() else GIRL.AsObj())
      else Ok(if adult then MAN.AsObj() else BOY.AsObj())
    case (Err(e), _) => Err(e)
    case (_, Err(e)) => Err(e)
  }

  /** A child's age is converted to its number of years and classified CHILD. */
  lemma AgeOfChild(frame: NotionFrame)
    requires frame.converter == AgeConverter && frame.discriminator == AgeDiscriminator
    ensures EvaluateNotionValue("v1", frame, FoldArgs([Arg("age", "14")]))
              == Ok(NotionValue("v1", frame, Number(14), CHILD.AsObj()))
  {
    var args := [Arg("age", "14")];
    FoldArgsSpec(args);
    assert LastArg(args, 0);
    assert ParseInt("14") == Ok(14) by {
      assert "14"[..1] == "1" && "1"[..0] == [];
      assert AllDigits("14");
      assert Digits("1") == 1;
      assert Digits("14") == 14;
    }
  }

  /** With a repeated key the last gender given is the one classified. */
  lemma LastGenderWins(frame: NotionFrame)
    requires frame.converter == GenderConverter && frame.discriminator == GenderDiscriminator
    ensures EvaluateNotionValue("v2", frame, FoldArgs([Arg("gender", "MALE"), Arg("gender", "FEMALE")]))
              == Ok(NotionValue("v2", frame, FEMALE.AsObj(), FEMALE.AsObj()))
  {
    var args := [Arg("gender", "MALE"), Arg("gender", "FEMALE")];
    FoldArgsSpec(args);
    assert LastArg(args, 1);
  }

  /** The instance over v1 and v2 holds v1 under its frame's name and v2
      under its own. */
  lemma InstanceHoldsBoth(
    perceptiveFrames: Dict<PerceptiveFrame>, values: Dict<NotionValue>, ids: seq<string>)
    requires forall k :: k in values.entries ==> Evaluated(values.entries[k])
    requires "legal_status" in perceptiveFrames.entries
    requires ids == ["v1", "v2"] && "v1" in values.entries && "v2" in values.entries
    requires values.entries["v1"].frame.name == "age_years"
    requires values.entries["v2"].frame.name == "declared_gender"
    ensures var r := BuildInstance(perceptiveFrames, values, "i1", "legal_status", ids);
      && r.Ok? && InstanceId(r.value) == Ok("i1")
      && r.value.perceptiveFrame == perceptiveFrames.entries["legal_status"]
      && r.value.notionValues.Valid()
      && r.value.notionValues.Index("age_years") == Ok(values.entries["v1"])
      && r.value.notionValues.Index("declared_gender") == Ok(values.entries["v2"])
  {
    var bound := Bound(values, ids);
    assert LastOfFrame(bound, 0) && LastOfFrame(bound, 1) by {
      assert "age_years"[0] != "declared_gender"[0];
    }
    InstanceSpec(perceptiveFrames, values, "i1", "legal_status", ids);
    InstanceValuesSpec(perceptiveFrames, values, "i1", "legal_status", ids);
  }

  /** An instance binding a CHILD age value and a FEMALE gender value to a
      perceptive frame with the legal rule is classified GIRL. */
  lemma GirlInstance(
    perceptiveFrames: Dict<PerceptiveFrame>, values: Dict<NotionValue>,
    ageFrame: NotionFrame, genderFrame: NotionFrame)
    requires forall k :: k in values.entries ==> Evaluated(values.entries[k])
    requires "legal_status" in perceptiveFrames.entries
    requires perceptiveFrames.entries["legal_status"].discriminator == Legal
    requires ageFrame.name == "age_years" && genderFrame.name == "declared_gender"
    requires values.Get("v1") == Some(NotionValue("v1", ageFrame, Number(14), CHILD.AsObj()))
    requires values.Get("v2") == Some(NotionValue("v2", genderFrame, FEMALE.AsObj(), FEMALE.AsObj()))
    ensures var r := BuildInstance(perceptiveFrames, values, "i1", "legal_status", ["v1", "v2"]);
      r.Ok? && InstanceId(r.value) == Ok("i1") && Classification(r.value) == Ok("GIRL")
  {
    InstanceHoldsBoth(perceptiveFrames, values, ["v1", "v2"]);
    var inst := BuildInstance(perceptiveFrames, values, "i1", "legal_status", ["v1", "v2"]).value;
    LegalGirl(FramesOf(inst.notionValues), inst.notionValues);
  }

  /** A CHILD age and a FEMALE gender make a GIRL, whatever the frames. */
  lemma LegalGirl(frames: Dict<NotionFrame>, values: Dict<NotionValue>)
    requires "age_years" in values.entries && values.entries["age_years"].classification == CHILD.AsObj()
    requires "declared_gender" in values.entries && values.entries["declared_gender"].classification == FEMALE.AsObj()
    ensures Legal(frames, values) == Ok(GIRL.AsObj())
  {
  }

  /** Registers the age and gender frames in a fresh registry. */
  method RegisterFrames() returns (registry: Registry, age: NotionFrame, gender: NotionFrame)
    ensures fresh(registry) && registry.Valid()
    ensures age.name == "age_years" && gender.name == "declared_gender"
    ensures age.converter == AgeConverter && age.discriminator == AgeDiscriminator
    ensures gender.converter == GenderConverter && gender.discriminator == GenderDiscriminator
    ensures registry.notionFrames.Get("age_years") == Some(age)
    ensures registry.notionFrames.Get("declared_gender") == Some(gender)
    ensures registry.notionFrames.keys == ["age_years", "declared_gender"]
    ensures registry.notionValues == Empty()
  {
    registry := new Registry();
    age := registry.NewNotionFrame("age_years", INTEGER, YEAR, "", AgeConverter, "", AgeDiscriminator);
    gender := registry.NewNotionFrame("declared_gender", GENDER, NONE, "", GenderConverter, "", GenderDiscriminator);
    assert "age_years" != "declared_gender" by { assert "age_years"[0] != "declared_gender"[0]; }
  }

  /** Registers a child's age against the age frame. */
  method RegisterAge() returns (registry: Registry, age: NotionFrame, gender: NotionFrame)
    ensures fresh(registry) && registry.Valid()
    ensures age.name == "age_years" && gender.name == "declared_gender"
    ensures gender.converter == GenderConverter && gender.discriminator == GenderDiscriminator
    ensures registry.notionFrames.keys == ["age_years", "declared_gender"]
    ensures registry.notionFrames.Get("declared_gender") == Some(gender)
    ensures registry.notionValues.Get("v1") == Some(NotionValue("v1", age, Number(14), CHILD.AsObj()))
    ensures registry.notionValues.keys == ["v1"]
  {
    registry, age, gender := RegisterFrames();
    AgeOfChild(age);
    var v1 := registry.CreateNotionValue("v1", "age_years", [Arg("age", "14")]);
    assert Display(v1.value.classification) == Text("CHILD");
  }

  /** Registers one value against each frame: a child's age and, given
      twice, a gender. */
  method RegisterValues() returns (registry: Registry, age: NotionFrame, gender: NotionFrame)
    ensures fresh(registry) && registry.Valid()
    ensures age.name == "age_years" && gender.name == "declared_gender"
    ensures registry.notionFrames.keys == ["age_years", "declared_gender"]
    ensures registry.notionValues.Get("v1") == Some(NotionValue("v1", age, Number(14), CHILD.AsObj()))
    ensures registry.notionValues.Get("v2") == Some(NotionValue("v2", gender, FEMALE.AsObj(), FEMALE.AsObj()))
    ensures registry.notionValues.keys == ["v1", "v2"]
  {
    registry, age, gender := RegisterAge();
    LastGenderWins(gender);
    assert "v2" !in registry.notionValues.entries by { assert "v1"[1] != "v2"[1]; }
    var v2 := registry.CreateNotionValue("v2", "declared_gender", [Arg("gender", "MALE"), Arg("gender", "FEMALE")]);
  }

  /** Adds the legal-status perceptive frame over the two frames, after a
      value against an unknown frame has been refused. */
  method RegisterLegalStatus() returns (registry: Registry, age: NotionFrame, gender: NotionFrame)
    ensures fresh(registry) && registry.Valid()
    ensures age.name == "age_years" && gender.name == "declared_gender"
    ensures registry.notionValues.Get("v1") == Some(NotionValue("v1", age, Number(14), CHILD.AsObj()))
    ensures registry.notionValues.Get("v2") == Some(NotionValue("v2", gender, FEMALE.AsObj(), FEMALE.AsObj()))
    ensures registry.notionValues.keys == ["v1", "v2"]
    ensures "legal_status" in registry.perceptiveFrames.entries
    ensures registry.perceptiveFrames.entries["legal_status"].discriminator == Legal
  {
    registry, age, gender := RegisterValues();
    assert "height" !in registry.notionFrames.entries by {
      assert "height"[0] != "age_years"[0] && "height"[0] != "declared_gender"[0];
    }
    var missing := registry.CreateNotionValue("v0", "height", []);
    assert missing == Err(KeyError("height"));

    var legal := registry.NewPerceptiveFrame("legal_status", ["age_years", "declared_gender"], "", Legal);
    assert legal.Ok? by {
      PerceptiveFrameSpec(registry.notionFrames, "legal_status", ["age_years", "declared_gender"], "", Legal);
    }
  }

  /** The whole example: an instance naming an unknown value is refused, and
      the instance over v1 and v2 is classified GIRL. */
  method LegalStatus()
  {
    var registry, age, gender := RegisterLegalStatus();
    var noValue := registry.NewPerceptiveFrameInstance("i0", "legal_status", ["v1", "v9"]);
    assert noValue == Err(AttributeError("frame")) by {
      assert "v9" !in registry.notionValues.entries by {
        assert "v9"[1] != "v1"[1] && "v9"[1] != "v2"[1];
      }
      InstanceSpec(registry.perceptiveFrames, registry.notionValues, "i0", "legal_status", ["v1", "v9"]);
    }

    GirlInstance(registry.perceptiveFrames, registry.notionValues, age, gender);
    var inst := registry.NewPerceptiveFrameInstance("i1", "legal_status", ["v1", "v2"]);
    assert Classification(inst.value) == Ok("GIRL");
  }
}
