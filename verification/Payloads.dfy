/** What a chat message says, and who may react to it. */
module Payloads {
  import opened Bytes
  import opened Results

  datatype Target = ToUser(uid: i64) | ToGroup(gid: i64)

  /** The values of properties as their JSON text. */
  datatype Content = Content(contentType: string, text: string, properties: Option<map<string, string>>)

  datatype Action = Edit(content: Content) | Like(emoji: string) | Withdraw

  datatype Detail =
    | Normal(content: Content, expiresIn: Option<int>)
    | Reply(replyTo: i64, content: Content)
    | Reaction(mid: i64, action: Action)

  datatype Payload = Payload(from: i64, createdAt: int, target: Target, detail: Detail)

  /** The current form of a message: its last edit merged into it. */
  datatype Merged = Merged(from: i64, target: Target, content: Content, createdAt: int)

  /** Only messages with content can be reacted to; only the author may edit, only the
      author and administrators may withdraw. */
  predicate CanReact(action: Action, uid: i64, isAdmin: bool, p: Payload) {
    && !p.detail.Reaction?
    && match action
       case Edit(_) => uid == p.from
       case Like(_) => true
       case Withdraw => uid == p.from || isAdmin
  }

  /** Where a reaction of `uid` to `p` is sent. */
  function ReactionTarget(uid: i64, p: Payload): Target {
    match p.target
    case ToUser(to) => ToUser(if to == uid then p.from else to)
    case ToGroup(gid) => ToGroup(gid)
  }
}
