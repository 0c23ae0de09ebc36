/** What a task asks for: the definition a provider returns for an image. */
module Tasks {

  /** A type is any text; the five that the label parser accepts have a constructor. */
  datatype Type = Text | Number | File | Secret | Boolean | Other(text: string)

  /** What an assertion on a submitted value or file answers. */
  datatype Verdict = Holds | Skips | Violated(message: string)

  datatype Constraint = Constraint(assertValue: string -> Verdict, assertFile: string -> Verdict)

  datatype Input = Input(
    name: string,
    caption: string,
    kind: Type,
    description: string,
    required: bool,
    defaultValue: string,
    tags: seq<string>,
    constraints: seq<Constraint>)

  datatype Definition = Definition(
    name: string,
    description: string,
    author: string,
    url: string,
    imageRef: string,
    inputs: seq<Input>,
    configuration: seq<Input>)

  /** No two inputs share a name. */
  ghost predicate Distinct(inputs: seq<Input>) {
    forall i, j :: 0 <= i < j < |inputs| ==> inputs[i].name != inputs[j].name
  }
}
