/** The few pieces of the Python runtime the registry relies on: optional
    results, the exceptions its operations raise, and the objects that rules
    compute (enum members or plain values) together with their display form. */
module PyObjects {

  datatype Option<+T> = None | Some(value: T)

  /** The exceptions the registry's operations can raise. `RuleError` stands
      for anything a caller-supplied rule raises on its own. */
  datatype Error =
    | KeyError(key: string)
    | AttributeError(attribute: string)
    | IndexError
    | RuleError(message: string)

  datatype Result<+T> = Ok(value: T) | Err(error: Error)

  /** A Python object produced by a rule. `Member` is an `IntEnum` member (the
      class name, the member name and its integer value); every other object a
      rule may produce (a string, an integer, a date, ...) is a non-member. */
  datatype Obj =
    | Member(enumClass: string, name: string, ordinal: int)
    | Text(text: string)
    | Number(number: int)
    | Other(repr: string)

  /** The display of a property or a classification
      (`resolve_notion_value_classification`): an enum member is shown by its
      name, anything else is returned as it is. */
  function Display(o: Obj): (r: Obj)
    ensures o.Member? ==> r == Text(o.name)
    ensures !o.Member? ==> r == o
  {
    match o
    case Member(_, name, _) => Text(name)
    case _ => o
  }

  /** Python's `.name` attribute: enum members have one; in this model no
      other object does. */
  function NameOf(o: Obj): (r: Result<string>)
    ensures r.Ok? <==> o.Member?
    ensures r.Ok? ==> Display(o) == Text(r.value)
    ensures r.Err? ==> r.error == AttributeError("name")
  {
    match o
    case Member(_, name, _) => Ok(name)
    case _ => Err(AttributeError("name"))
  }
}
