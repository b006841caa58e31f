/** The client's half of the signalling protocol: the commands it writes and the lines it understands. */
module SignallingClient {
  import opened Wrappers
  import opened Framing

  function CandidateCommand(target: string, candidate: string): string {
    "CANDIDATE " + target + " " + candidate + "\n"
  }

  function OfferCommand(target: string): string {
    "OFFER " + target + "\n"
  }

  function AnswerCommand(target: string): string {
    "ANSWER " + target + "\n"
  }

  function OfferDeclinedCommand(target: string): string {
    "OFFER_DECLINED " + target + "\n"
  }

  function RelayCommand(target: string, text: string): string {
    "CHAT " + target + " " + text + "\n"
  }

  function RegisterCommand(id: string): Option<string> {
    if id == "" || ' ' in id then None else Some("REGISTER " + id + "\n")
  }

  /** What the client is told; lines without a notice are dropped. */
  datatype Notice = Notice(sender: string, kind: string, data: string)

  /** The text behind the first space and the one behind the second. */
  function SenderAndData(args: string, kind: string): Option<Notice> {
    var i := FirstOf(args, ' ');
    if i == |args| then None else Some(Notice(args[..i], kind, args[i + 1..]))
  }

  function ProcessLine(line: string): Option<Notice> {
    var space := FirstOf(line, ' ');
    var verb := line[..space];
    var bare := space == |line|;
    var args := if bare then "" else line[space + 1..];
    if line == "" then None
    else if verb == "CANDIDATE" then if bare then None else SenderAndData(args, "candidate")
    else if verb == "OFFER" then if bare then None else Some(Notice(args, "offer", ""))
    else if verb == "ANSWER" then if bare then None else Some(Notice(args, "answer", ""))
    else if verb == "OFFER_DECLINED" then if bare then None else Some(Notice(args, "offer_declined", ""))
    else if verb == "LIST" then Some(Notice("server", "list", args))
    else if verb == "SERVER_MSG" then if bare then None else SenderAndData(args, "server_chat")
    else None
  }
}
