/** Message ids as the app holds them (app/src/mail/imap.ts:106-118): folder incarnation, UID and folder in one string. */
module ImapIds {
  import opened Common
  import opened Decimal

  datatype Id = Id(validity: nat, uid: nat, folder: string)

  function MessageId(id: Id): (s: string) {
    ToString(id.validity) + ":" + ToString(id.uid) + ":" + id.folder
  }

  /** A run of digits and the colon after it, cut off the front. */
  function CutNumber(s: string): (r: Option<(nat, string)>) {
    var n := DigitRun(s);
    if n == 0 || n == |s| || s[n] != ':' then None else Some((ToNat(s[..n]), s[n + 1..]))
  }

  /** Two numbers and a folder name that is not empty, or no id at all. */
  function ParseMessageId(s: string): (r: Option<Id>) {
    match CutNumber(s)
    case None => None
    case Some((validity, rest)) =>
      match CutNumber(rest)
      case None => None
      case Some((uid, folder)) => if folder == "" then None else Some(Id(validity, uid, folder))
  }

  lemma CutPrinted(n: nat, rest: string)
    ensures CutNumber(ToString(n) + ":" + rest) == Some((n, rest))
  {
    var s := ToString(n) + (":" + rest);
    assert s == ToString(n) + ":" + rest;
    DigitRunOf(ToString(n), ":" + rest);
    RoundTrip(n);
    assert s[..|ToString(n)|] == ToString(n);
  }

  /** Any folder name reads back, colons and digits in it included. */
  lemma ParseOfMessageId(id: Id)
    ensures ParseMessageId(MessageId(id)) == if id.folder == "" then None else Some(id)
  {
    var tail := ToString(id.uid) + ":" + id.folder;
    assert MessageId(id) == ToString(id.validity) + ":" + tail;
    CutPrinted(id.validity, tail);
    CutPrinted(id.uid, id.folder);
  }

  /** So a map keyed by the strings is a map keyed by what they name. */
  lemma MessageIdInjective(a: Id, b: Id)
    requires a.folder != "" && b.folder != ""
    ensures MessageId(a) == MessageId(b) <==> a == b
  {
    ParseOfMessageId(a);
    ParseOfMessageId(b);
  }
}
