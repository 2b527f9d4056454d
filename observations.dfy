/**
 * What the UI pages yield for one resource iteration. The Selenium reads of
 * ProjectExplorerPage and ProjectDetailsPage are not modelled: each step that
 * the verification loop wraps in one try block becomes an Outcome, either the
 * value the step returned or the message of the exception it threw.
 */
module Observations {
  import opened Resources

  datatype Outcome<+T> = Ok(value: T) | Fail(cause: string)

  /** getUIFieldNames, getUIFieldTypes and getUIPKStatuses, read in one try block. */
  datatype FieldColumns = FieldColumns(names: seq<string>, types: seq<string>, pks: seq<bool>)

  /** Opening SampleStrucuture, reading its name, reading its field columns. */
  datatype EntityView = EntityView(navigation: Outcome<()>, name: Outcome<JString>, fields: Outcome<FieldColumns>)

  /** Opening EnumSample, reading its name, reading its literals. */
  datatype EnumView = EnumView(navigation: Outcome<()>, name: Outcome<JString>, literals: Outcome<seq<string>>)

  /** getUIFlowInputNames and getUIFlowInputTypes, read in one try block. */
  datatype InputColumns = InputColumns(names: seq<string>, types: seq<string>)

  /** Opening ServerFlow, reading its name, reading its input columns. */
  datatype FlowView = FlowView(navigation: Outcome<()>, name: Outcome<JString>, inputs: Outcome<InputColumns>)

  /** getFolderName, getUIFolderLocation and isUICitizenToolEnabled, read in one try block. */
  datatype FolderDetails = FolderDetails(name: string, location: string, citizenTool: bool)

  /** Opening VF1, then reading its details. */
  datatype FolderView = FolderView(navigation: Outcome<()>, details: Outcome<FolderDetails>)
}
