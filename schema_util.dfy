/** What the client's zod schemas report, and the `requiredString` field
    builder they share (client/src/lib/util/util.ts). */
module SchemaUtil {

  /** A zod issue: the object key it is reported at and its message. */
  datatype Issue = Issue(path: string, message: string)

  /** `requiredString(fieldName)` reading the (string) value at `key`: a string
      shorter than one character gives the single issue `"<fieldName> is required"`. */
  function RequiredString(key: string, fieldName: string, value: string): (r: seq<Issue>)
    ensures r == [] <==> |value| >= 1
    ensures r != [] ==> r == [Issue(key, RequiredMessage(fieldName))]
  {
    if |value| < 1 then [Issue(key, RequiredMessage(fieldName))] else []
  }

  /** The message of `requiredString(fieldName)`. */
  function RequiredMessage(fieldName: string): (r: string)
    ensures |r| == |fieldName| + 12
    ensures r[..|fieldName|] == fieldName
  {
    fieldName + " is required"
  }
}
