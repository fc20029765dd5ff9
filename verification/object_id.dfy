/** The ObjectId cast Mongoose applies to every `_id` condition before a query runs.  A
    string id casts only when it is 24 hexadecimal digits; any other string makes the query
    throw, which the handlers' `catch` blocks answer with 500. */
module ObjectId {
  predicate IsHexDigit(c: char)
  {
    '0' <= c <= '9' || 'a' <= c <= 'f' || 'A' <= c <= 'F'
  }

  predicate IsObjectId(s: string)
  {
    |s| == 24 && forall i :: 0 <= i < |s| ==> IsHexDigit(s[i])
  }
}
