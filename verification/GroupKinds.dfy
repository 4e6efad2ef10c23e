/** Who may manage a group. */
module GroupKinds {
  import opened Bytes

  datatype GroupKind = Public | Private(owner: i64)

  datatype ApiError = BadRequest | Unauthorized | Forbidden | NotFound | Conflict | Internal

  /** Public groups belong to the administrators, private ones also to their owner. */
  predicate MayManage(kind: GroupKind, uid: i64, isAdmin: bool) {
    match kind
    case Public => isAdmin
    case Private(owner) => owner == uid || isAdmin
  }
}
