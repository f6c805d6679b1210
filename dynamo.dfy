/**
 * The DynamoDB values the core exchanges with the store, as plain data (the SDK's
 * types.AttributeValue members and attribute maps).
 */
module Dynamo {
  import opened Wrappers

  /**
   * An attribute value. S, N, BOOL and NULL are the members the core reads or writes;
   * Other stands for every other member (binary, lists, maps and sets), none of which
   * decodes into a string or a number field.
   */
  datatype AttributeValue =
    | S(s: string)
    | N(n: real)
    | BOOL(b: bool)
    | NULL
    | Other

  /** One item: attribute name to value. */
  type Item = map<string, AttributeValue>

  /** A Go map[string]types.AttributeValue, which may be nil (None). */
  type AttrMap = Option<Item>
}
