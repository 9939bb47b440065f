// The protocol values the agent handles, as far as dispatch depends on them.
module Protocol {
  import opened Common

  datatype Operation = Health | Inspect | SnapshotCreate | Unknown(name: string)

  datatype Code =
    | InvalidRequest | PermissionDenied | Unavailable | UnsupportedOperation | IncompatibleSpectra
    | ExecutionFailed | Timeout | Internal | MessageTooLarge | OtherCode(name: string)

  // A decoded request: what Validate says of it and what its parameters decode to for each operation.
  datatype Request = Request(
    id: string, operation: Operation,
    defect: Option<Code>,                // RequestErrorCode of a failed Validate
    inspectParams: Option<seq<string>>,  // app paths
    snapshotParams: Option<bool>)        // include apps

  datatype SchemaLookup = Supports(schema: string) | Lacks(code: Option<Code>)

  datatype Capabilities = Capabilities(spectraVersion: string, inspect: SchemaLookup, snapshot: SchemaLookup)

  function ResultSchemaFor(c: Capabilities, op: Operation): SchemaLookup {
    match op
    case Inspect => c.inspect
    case SnapshotCreate => c.snapshot
    case _ => Lacks(Some(UnsupportedOperation))
  }

  datatype Advertised = Advertised(operation: Operation, schema: Option<string>)

  datatype Outcome =
    | Failed(code: Code)
    | HealthReport(spectraVersion: string, operations: seq<Advertised>)
    | Diagnostic(schema: string, spectraVersion: string, data: Bytes)

  datatype Response = Response(id: string, outcome: Outcome)
}
