/** The structured log the tracer writes to: an append-only sequence of
    records, each a message with ordered key/value fields. The logging sink
    itself is not modelled. */
module Log {
  import opened Parameters

  datatype Field = Field(key: string, value: Value)

  datatype LogRecord = LogRecord(message: string, fields: seq<Field>)
}
