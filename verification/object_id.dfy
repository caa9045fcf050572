/** The text forms the store's ObjectId cast takes. A path of type
    `Schema.Types.ObjectId` (and every `_id`) casts a string through the
    driver's `ObjectID`: a string of 24 hexadecimal digits or any string of
    12 characters becomes an id, every other string fails the cast. An id
    read back is written as 24 lower-case hexadecimal digits. */
module ObjectId {

  predicate HexChar(c: char)
  {
    '0' <= c <= '9' || 'a' <= c <= 'f' || 'A' <= c <= 'F'
  }

  /** The strings the ObjectId cast accepts. */
  predicate ObjectIdText(s: string)
  {
    (|s| == 24 && forall i :: 0 <= i < |s| ==> HexChar(s[i])) || |s| == 12
  }

  /** The spelling the store gives an id it reads back. */
  predicate CanonicalObjectId(s: string)
  {
    |s| == 24 && forall i :: 0 <= i < |s| ==> '0' <= s[i] <= '9' || 'a' <= s[i] <= 'f'
  }

  /** Every id in the store's spelling passes the cast, and the empty string
      does not. */
  lemma CanonicalIdsCast(s: string)
    ensures CanonicalObjectId(s) ==> ObjectIdText(s)
    ensures !ObjectIdText("")
  {
  }
}
