/**
 * The expected records: the value classes of JsonParserUtil (Field, Entity,
 * EnumLiteral, Enumeration, FlowInput, Flow, FileFolder), read from the JSON
 * description before any comparison starts.
 */
module Resources {

  datatype Option<+T> = None | Some(value: T)

  /** A Java `String` field of a parsed record; `None` stands for `null`. */
  type JString = Option<string>

  datatype Field = Field(name: JString, scalarType: JString, pk: bool)

  datatype Entity = Entity(entityName: JString, fields: seq<Field>)

  datatype EnumLiteral = EnumLiteral(constant: JString)

  datatype Enumeration = Enumeration(name: JString, literals: seq<EnumLiteral>)

  datatype FlowInput = FlowInput(name: JString, scalarType: JString)

  datatype Flow = Flow(name: JString, inputs: seq<FlowInput>)

  /** `citizenToolEnabled` is a boxed `Boolean` and may be null. */
  datatype FileFolder = FileFolder(name: JString, citizenToolEnabled: Option<bool>, location: JString)

  /** Java's `s.equals(expected)` for a non-null receiver: never true against null. */
  predicate JEquals(s: string, expected: JString)
  {
    expected == Some(s)
  }

  /** `Boolean.TRUE.equals(b)`: a null flag reads as false. */
  predicate IsTrue(b: Option<bool>)
  {
    b == Some(true)
  }

  /** Java string concatenation, which prints a null reference as "null". */
  function Show(s: JString): string
  {
    if s.Some? then s.value else "null"
  }
}
