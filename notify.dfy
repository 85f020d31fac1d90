/** `processTx`: picks jetton transfer notifications with a text comment
    out of a transaction. It holds no state and stages nothing in the
    database; its only effects are a log line and its error result. */
module Notify {
  import opened Base
  import opened Ton

  const CommentErrorPrefix: string := "[JTN] failed to parse forward payload comment: "

  /** What `processTx` does with one transaction: nothing, log a
      notification, or fail. */
  datatype Verdict = Ignored | Notified(notification: Notification) | Failed(error: string)

  /** The transaction's inbound message is an internal message whose body
      parses as a jetton notification carrying a forward payload whose
      first 32 bits are the op 0 ("text comment"). */
  predicate IsCommentNotify(tx: Tx) {
    && tx.inMsg.kind == Internal
    && tx.inMsg.body.Some?
    && tx.inMsg.body.value.asNotify.Some?
    && tx.inMsg.body.value.asNotify.value.fwdPayload.Some?
    && tx.inMsg.body.value.asNotify.value.fwdPayload.value.op == Some(0)
  }

  /** The chain of early returns of `processTx`, in its order. */
  function Classify(tx: Tx): (v: Verdict)
    ensures !IsCommentNotify(tx) <==> v.Ignored?
    ensures v.Notified? ==>
      var jn := tx.inMsg.body.value.asNotify.value;
      && jn.fwdPayload.value.comment == Ok(v.notification.comment)
      && v.notification == Notification(jn.amount, jn.sender, tx.inMsg.dst, v.notification.comment)
    ensures v.Failed? ==>
      exists e :: tx.inMsg.body.value.asNotify.value.fwdPayload.value.comment == Err(e)
               && v.error == CommentErrorPrefix + e
  {
    var msg := tx.inMsg;
    if msg.kind != Internal then Ignored
    else if msg.body.None? then Ignored
    else match msg.body.value.asNotify {
      case None => Ignored
      case Some(jn) =>
        match jn.fwdPayload {
          case None => Ignored
          case Some(payload) =>
            match payload.op {
              case None => Ignored
              case Some(op) =>
                if op != 0 then Ignored
                else match payload.comment {
                  case Err(e) => Failed(CommentErrorPrefix + e)
                  case Ok(comment) => Notified(Notification(jn.amount, jn.sender, msg.dst, comment))
                }
            }
        }
    }
  }

  /** `processTx`'s error result: an error in exactly one case, a comment
      notification whose snake string does not load. */
  function ProcessTx(tx: Tx): (r: Option<string>)
    ensures r.Some? <==>
      IsCommentNotify(tx) && tx.inMsg.body.value.asNotify.value.fwdPayload.value.comment.Err?
    ensures r.Some? ==>
      r.value == CommentErrorPrefix + tx.inMsg.body.value.asNotify.value.fwdPayload.value.comment.error
  {
    match Classify(tx)
    case Failed(e) => Some(e)
    case _ => None
  }

  /** The notifications logged for `txs`, in order. */
  function Notifications(txs: seq<Tx>): seq<Notification> {
    if txs == [] then []
    else Notifications(txs[..|txs| - 1])
         + (match Classify(Last(txs)) case Notified(n) => [n] case _ => [])
  }

  /** Exactly the comment notifications that load are logged. */
  lemma {:induction false} NotificationsFromCommentNotifies(txs: seq<Tx>, n: Notification)
    ensures n in Notifications(txs) <==>
      exists i :: 0 <= i < |txs| && Classify(txs[i]) == Notified(n)
  {
    if txs != [] {
      var init := txs[..|txs| - 1];
      NotificationsFromCommentNotifies(init, n);
      if n in Notifications(txs) && n !in Notifications(init) {
        assert Classify(txs[|txs| - 1]) == Notified(n);
      }
      if exists i :: 0 <= i < |txs| && Classify(txs[i]) == Notified(n) {
        var i :| 0 <= i < |txs| && Classify(txs[i]) == Notified(n);
        if i < |init| {
          assert init[i] == txs[i];
        }
      }
    }
  }
}
