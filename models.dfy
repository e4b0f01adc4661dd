/** The two persisted entities, as declared by the Mongoose schemas. */
module Models {
  import opened Wrappers

  /** Delivery status of a stored message. */
  datatype MessageStatus = Sent | Delivered | Read | Pending

  /** The forward order pending, sent, delivered, read in which a status may advance. */
  function Rank(s: MessageStatus): nat
  {
    match s
    case Pending => 0
    case Sent => 1
    case Delivered => 2
    case Read => 3
  }

  /** Presence status of a user. */
  datatype UserStatus = Online | Offline

  predicate IsHexDigit(c: char)
  {
    '0' <= c <= '9' || 'a' <= c <= 'f' || 'A' <= c <= 'F'
  }

  predicate AllHex(s: string)
  {
    s == [] || (IsHexDigit(s[0]) && AllHex(s[1..]))
  }

  /** A string that casts to an ObjectId: 24 hexadecimal digits. */
  predicate IsObjectIdText(s: string)
  {
    |s| == 24 && AllHex(s)
  }

  function LowerHexDigit(c: char): char
  {
    if 'A' <= c <= 'F' then (c as int + 32) as char else c
  }

  /** The id an ObjectId cast stores and prints back: the same digits in lower case. */
  function CanonicalId(s: string): (r: string)
    ensures |r| == |s|
    ensures forall i :: 0 <= i < |s| ==> r[i] == LowerHexDigit(s[i])
    ensures AllHex(s) ==> AllHex(r)
  {
    if s == [] then [] else [LowerHexDigit(s[0])] + CanonicalId(s[1..])
  }

  /** Casting an id that is already canonical changes nothing, so casting twice is casting once. */
  lemma CanonicalIdIdempotent(s: string)
    ensures CanonicalId(CanonicalId(s)) == CanonicalId(s)
  {
    var once := CanonicalId(s);
    var twice := CanonicalId(once);
    assert |twice| == |once|;
    forall i | 0 <= i < |once| ensures twice[i] == once[i] {
    }
  }

  /** A stored message (its `_id` and the schema fields; `timestamp` in milliseconds). */
  datatype MessageDoc = MessageDoc(
    id: string,
    senderId: string,
    receiverId: string,
    roomId: string,
    body: string,
    status: MessageStatus,
    timestamp: nat)

  /** A stored user, keyed by its `_id` in the user collection. */
  datatype UserDoc = UserDoc(
    username: string,
    socketId: Option<string>,
    status: UserStatus,
    lastSeen: nat)

  /** A user as the client receives it from the user list endpoint. */
  datatype UserView = UserView(
    id: string,
    username: string,
    status: UserStatus,
    lastSeen: Option<nat>)
}
