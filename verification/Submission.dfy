/** The mail relay's submission session: commands, message data with dot-unstuffing, and the spool.
    Text is a sequence of characters standing for bytes. How a command line is parsed is a parameter. */
module Submission {
  import opened Options

  const SIZE_CAP: int := 10 * 1024 * 1024
  const RCPT_CAP: int := 25
  const CRLF := "\r\n"

  datatype Config = Config(users: map<string, string>, allowedFrom: seq<string>, tls: bool)

  /** What a command line amounts to. */
  datatype Command =
    | Hello
    | StartTLS
    | AuthMalformed                                        // an undecodable payload
    | AuthLogin
    | AuthPlain(credentials: Option<(string, string)>)     // user and password, if the payload has three parts; other mechanisms carry none
    | MailFrom(addr: string)
    | RcptTo(addr: string)
    | Data
    | Rset
    | Noop
    | Quit
    | Unknown

  /** A line from the client; `succeeds` says how the outside operation it sets off would end: the TLS handshake after
      a STARTTLS, the spooling of a message it completes. */
  datatype Line = Line(text: string, succeeds: bool)

  datatype Mail = Mail(from: string, rcpts: seq<string>, data: string)

  datatype Session = Session(
    authed: string,
    from: string,
    rcpts: seq<string>,
    inData: bool,
    buf: string,
    live: bool,
    spool: seq<Mail>,
    replies: seq<int>)

  type Parser = string -> Command

  // ----- Pieces -----

  function Lower(s: string): string {
    if s == "" then ""
    else
      var c := s[|s| - 1];
      Lower(s[..|s| - 1]) + [if 'A' <= c <= 'Z' then c - 'A' + 'a' else c]
  }

  /** The part after the last '@', or the whole scan's failure value. */
  function DomainFrom(addr: string, n: nat): string
    requires n <= |addr|
  {
    if n == 0 then "invalid" else if addr[n - 1] == '@' then Lower(addr[n..]) else DomainFrom(addr, n - 1)
  }

  predicate Allowed(cfg: Config, from: string) {
    DomainFrom(from, |from|) in cfg.allowedFrom
  }

  predicate StartsWithDot(s: string) {
    s != "" && s[0] == '.'
  }

  function Unstuff(s: string): string {
    if |s| >= 2 && s[0] == '.' && s[1] == '.' then s[1..] else s
  }

  /** What a sender does to a line of the message before sending it (section 4.5.2 of RFC 5321). */
  function Stuff(s: string): string {
    if StartsWithDot(s) then "." + s else s
  }

  /** What a receiver does to a line that is not the terminator (section 4.5.2 of RFC 5321). */
  function UnstuffByStandard(s: string): string {
    if StartsWithDot(s) then s[1..] else s
  }

  // ----- One line -----

  function Close(s: Session, code: int): Session {
    s.(live := false, replies := s.replies + [code])
  }

  function Reply(s: Session, code: int): Session {
    s.(replies := s.replies + [code])
  }

  /** The line that ends the message data. */
  function EndOfData(cfg: Config, s: Session, stored: bool): Session {
    var t := s.(inData := false);
    if s.authed == "" then Close(t, 530)
    else if s.from == "" || s.rcpts == [] then Close(t, 503)
    else if !Allowed(cfg, s.from) then Close(t, 550)
    else if !stored then Close(t, 451)
    else Reply(t.(spool := s.spool + [Mail(s.from, s.rcpts, s.buf)], from := "", rcpts := [], buf := ""), 250)
  }

  function DataLine(s: Session, text: string): Session {
    var line := Unstuff(text);
    if |s.buf| + |line| + 1 > SIZE_CAP then Close(s, 552) else s.(buf := s.buf + (line + CRLF))
  }

  function Authenticate(cfg: Config, s: Session, credentials: Option<(string, string)>): Session {
    var t := match credentials
      case Some((user, password)) => if user in cfg.users && cfg.users[user] == password then s.(authed := user) else s
      case None => s;
    if t.authed == "" then Close(t, 535) else Reply(t, 235)
  }

  function Obey(cfg: Config, s: Session, c: Command, succeeds: bool): Session {
    match c
    case Hello => Reply(s, 250)
    case StartTLS =>
      if !cfg.tls then Reply(s, 502)
      else if !succeeds then Close(s, 220)
      else Session("", "", [], false, "", true, s.spool, s.replies + [220])
    case AuthMalformed => Reply(s, 535)
    case AuthLogin => Reply(Reply(s, 334), 535)
    case AuthPlain(credentials) => Authenticate(cfg, s, credentials)
    case MailFrom(addr) => if s.authed == "" then Reply(s, 530) else Reply(s.(from := addr), 250)
    case RcptTo(addr) =>
      if s.from == "" then Reply(s, 503)
      else
        var rcpts := if addr != "" then s.rcpts + [addr] else s.rcpts;
        Reply(s.(rcpts := rcpts), if |rcpts| > RCPT_CAP then 452 else 250)
    case Data => if s.from == "" || s.rcpts == [] then Reply(s, 503) else Reply(s.(inData := true), 354)
    case Rset => Reply(s.(from := "", rcpts := [], buf := ""), 250)
    case Noop => Reply(s, 250)
    case Quit => Close(s, 221)
    case Unknown => Reply(s, 502)
  }

  function Step(cfg: Config, parse: Parser, s: Session, line: Line): Session {
    if !s.live then s
    else if s.inData then
      if line.text == "." then EndOfData(cfg, s, line.succeeds) else DataLine(s, line.text)
    else Obey(cfg, s, parse(line.text), line.succeeds)
  }

  /** The session after all of `lines`. */
  function Feed(cfg: Config, parse: Parser, s: Session, lines: seq<Line>): Session
    decreases |lines|
  {
    if lines == [] then s else Feed(cfg, parse, Step(cfg, parse, s, lines[0]), lines[1..])
  }

  const FRESH := Session("", "", [], false, "", true, [], [220])

  // ----- The session object -----

  class SubmissionSession {
    const config: Config
    const parse: Parser
    var authed: string
    var from: string
    var rcpts: seq<string>
    var inData: bool
    var buf: string
    var live: bool
    var spool: seq<Mail>
    var replies: seq<int>

    ghost function View(): Session
      reads this
    {
      Session(authed, from, rcpts, inData, buf, live, spool, replies)
    }

    constructor (config: Config, parse: Parser)
      ensures this.config == config && this.parse == parse && View() == FRESH
    {
      this.config, this.parse := config, parse;
      authed, from, rcpts, inData, buf, live := "", "", [], false, "", true;
      spool, replies := [], [220];
    }

    method Run(lines: seq<Line>)
      modifies this
      ensures View() == Feed(config, parse, old(View()), lines)
    {
      ghost var start := View();
      for i := 0 to |lines|
        invariant Feed(config, parse, View(), lines[i..]) == Feed(config, parse, start, lines)
      {
        assert lines[i..][0] == lines[i] && lines[i..][1..] == lines[i + 1..];
        HandleLine(lines[i]);
      }
      assert lines[|lines|..] == [];
    }

    method HandleLine(line: Line)
      modifies this
      ensures View() == Step(config, parse, old(View()), line)
    {
      if !live {
        return;
      }
      if inData {
        if line.text == "." {
          FinishMessage(line.succeeds);
        } else {
          AppendLine(line.text);
        }
      } else {
        Execute(parse(line.text), line.succeeds);
      }
    }

    method FinishMessage(stored: bool)
      modifies this
      ensures View() == EndOfData(config, old(View()), stored)
    {
      inData := false;
      if authed == "" {
        replies, live := replies + [530], false;
        return;
      }
      if from == "" || |rcpts| == 0 {
        replies, live := replies + [503], false;
        return;
      }
      var fromDomain := DomainFrom(from, |from|);
      var allowed := false;
      for i := 0 to |config.allowedFrom|
        invariant allowed <==> fromDomain in config.allowedFrom[..i]
      {
        if fromDomain == config.allowedFrom[i] {
          allowed := true;
        }
      }
      assert config.allowedFrom[..|config.allowedFrom|] == config.allowedFrom;
      if !allowed {
        replies, live := replies + [550], false;
        return;
      }
      if !stored {
        replies, live := replies + [451], false;
        return;
      }
      spool := spool + [Mail(from, rcpts, buf)];
      replies := replies + [250];
      from, rcpts, buf := "", [], "";
    }

    method AppendLine(text: string)
      modifies this
      ensures View() == DataLine(old(View()), text)
    {
      var line := text;
      if |line| >= 2 && line[0] == '.' && line[1] == '.' {
        line := line[1..];
      }
      if |buf| + |line| + 1 > SIZE_CAP {
        replies, live := replies + [552], false;
        return;
      }
      buf := buf + (line + CRLF);
    }

    method Execute(c: Command, succeeds: bool)
      modifies this
      ensures View() == Obey(config, old(View()), c, succeeds)
    {
      match c {
        case Hello => replies := replies + [250];
        case StartTLS =>
          if !config.tls {
            replies := replies + [502];
            return;
          }
          replies := replies + [220];
          if !succeeds {
            live := false;
            return;
          }
          authed, from, rcpts, inData, buf, live := "", "", [], false, "", true;
        case AuthMalformed => replies := replies + [535];
        case AuthLogin =>
          replies := replies + [334];
          replies := replies + [535];
        case AuthPlain(credentials) => CheckPassword(credentials);
        case MailFrom(addr) =>
          if authed == "" {
            replies := replies + [530];
            return;
          }
          from := addr;
          replies := replies + [250];
        case RcptTo(addr) =>
          if from == "" {
            replies := replies + [503];
            return;
          }
          if addr != "" {
            rcpts := rcpts + [addr];
          }
          if |rcpts| > RCPT_CAP {
            replies := replies + [452];
            return;
          }
          replies := replies + [250];
        case Data =>
          if from == "" || |rcpts| == 0 {
            replies := replies + [503];
            return;
          }
          replies := replies + [354];
          inData := true;
        case Rset =>
          from, rcpts, buf := "", [], "";
          replies := replies + [250];
        case Noop => replies := replies + [250];
        case Quit => replies, live := replies + [221], false;
        case Unknown => replies := replies + [502];
      }
    }

    method CheckPassword(credentials: Option<(string, string)>)
      modifies this
      ensures View() == Authenticate(config, old(View()), credentials)
    {
      if credentials.Some? {
        var (user, password) := credentials.value;
        if user in config.users && config.users[user] == password {
          authed := user;
        }
      }
      if authed == "" {
        replies, live := replies + [535], false;
        return;
      }
      replies := replies + [235];
    }
  }

  // ----- What every session keeps -----

  predicate Lawful(cfg: Config, m: Mail) {
    m.from != "" && Allowed(cfg, m.from) && m.rcpts != [] && |m.data| <= SIZE_CAP + 1
  }

  /** Outside message data the buffer is empty; a sender needs an authenticated user; message data needs a sender
      and a recipient; and everything spooled obeys the relay's rules. */
  ghost predicate Sound(cfg: Config, s: Session) {
    && (s.live && !s.inData ==> s.buf == "")
    && (s.authed != "" ==> s.authed in cfg.users)
    && (s.live && s.from != "" ==> s.authed != "")
    && (s.live && s.inData ==> s.from != "" && s.rcpts != [])
    && |s.buf| <= SIZE_CAP + 1
    && forall m :: m in s.spool ==> Lawful(cfg, m)
  }

  lemma {:induction false} StepKeepsSound(cfg: Config, parse: Parser, s: Session, line: Line)
    requires Sound(cfg, s)
    ensures Sound(cfg, Step(cfg, parse, s, line))
  {
    if s.live && s.inData && line.text == "." {
      EndOfDataKeepsSound(cfg, s, line.succeeds);
    } else if s.live && !s.inData {
      ObeyKeepsSound(cfg, s, parse(line.text), line.succeeds);
    }
  }

  lemma {:induction false} EndOfDataKeepsSound(cfg: Config, s: Session, stored: bool)
    requires Sound(cfg, s) && s.live && s.inData
    ensures Sound(cfg, EndOfData(cfg, s, stored))
  {
  }

  lemma {:induction false} ObeyKeepsSound(cfg: Config, s: Session, c: Command, succeeds: bool)
    requires Sound(cfg, s) && s.live && !s.inData
    ensures Sound(cfg, Obey(cfg, s, c, succeeds))
  {
  }

  /** In every session, whatever the client sends. */
  lemma {:induction false} SessionSound(cfg: Config, parse: Parser, s: Session, lines: seq<Line>)
    requires Sound(cfg, s)
    ensures Sound(cfg, Feed(cfg, parse, s, lines))
    decreases |lines|
  {
    if lines != [] {
      StepKeepsSound(cfg, parse, s, lines[0]);
      SessionSound(cfg, parse, Step(cfg, parse, s, lines[0]), lines[1..]);
    }
  }

  /** So the end-of-data line never finds the session unauthenticated or without sender and recipients. */
  lemma {:induction false} EndOfDataChecksPass(cfg: Config, parse: Parser, lines: seq<Line>)
    ensures var s := Feed(cfg, parse, FRESH, lines);
      s.live && s.inData ==> s.authed in cfg.users && s.from != "" && s.rcpts != []
  {
    SessionSound(cfg, parse, FRESH, lines);
  }

  lemma {:induction false} FeedAppend(cfg: Config, parse: Parser, s: Session, a: seq<Line>, b: seq<Line>)
    ensures Feed(cfg, parse, s, a + b) == Feed(cfg, parse, Feed(cfg, parse, s, a), b)
    decreases |a|
  {
    if a == [] {
      assert a + b == b;
    } else {
      assert (a + b)[0] == a[0] && (a + b)[1..] == a[1..] + b;
      FeedAppend(cfg, parse, Step(cfg, parse, s, a[0]), a[1..], b);
    }
  }

  lemma {:induction false} DeadStaysDead(cfg: Config, parse: Parser, s: Session, lines: seq<Line>)
    requires !s.live
    ensures Feed(cfg, parse, s, lines) == s
    decreases |lines|
  {
    if lines != [] {
      DeadStaysDead(cfg, parse, s, lines[1..]);
    }
  }

  // ----- Transparency -----

  /** The message as the spool should hold it: every line followed by CRLF. */
  function Wire(body: seq<string>): string {
    if body == [] then "" else body[0] + CRLF + Wire(body[1..])
  }

  /** The message as the client sends it: every line dot-stuffed. */
  function Stuffed(body: seq<string>): seq<Line> {
    if body == [] then [] else [Line(Stuff(body[0]), true)] + Stuffed(body[1..])
  }

  lemma {:induction false} StuffUnstuff(s: string)
    ensures Stuff(s) != "." && Unstuff(Stuff(s)) == s
  {
    if StartsWithDot(s) {
      assert ("." + s)[1..] == s;
    }
  }

  lemma {:induction false} FirstBodyLine(cfg: Config, parse: Parser, s: Session, body: seq<string>)
    requires s.live && s.inData && body != []
    ensures Feed(cfg, parse, s, Stuffed(body)) == Feed(cfg, parse, DataLine(s, Stuff(body[0])), Stuffed(body[1..]))
    ensures Unstuff(Stuff(body[0])) == body[0]
  {
    StuffUnstuff(body[0]);
    var line := Line(Stuff(body[0]), true);
    assert Stuffed(body) == [line] + Stuffed(body[1..]);
    assert Stuffed(body)[0] == line && Stuffed(body)[1..] == Stuffed(body[1..]);
  }

  /** Feeding stuffed lines accumulates the original ones, as long as they fit... */
  lemma {:induction false} BodyFits(cfg: Config, parse: Parser, s: Session, body: seq<string>)
    requires s.live && s.inData && |s.buf| + |Wire(body)| <= SIZE_CAP + 1
    ensures Feed(cfg, parse, s, Stuffed(body)) == s.(buf := s.buf + Wire(body))
    decreases |body|
  {
    if body == [] {
      assert s.buf + Wire(body) == s.buf;
    } else {
      FirstBodyLine(cfg, parse, s, body);
      var next := DataLine(s, Stuff(body[0]));
      assert |body[0] + CRLF + Wire(body[1..])| == |body[0]| + 2 + |Wire(body[1..])|;
      assert next.buf == s.buf + (body[0] + CRLF);
      BodyFits(cfg, parse, next, body[1..]);
      assert s.buf + Wire(body) == next.buf + Wire(body[1..]);
    }
  }

  /** ... and otherwise ends the session without spooling anything. */
  lemma {:induction false} BodyTooLong(cfg: Config, parse: Parser, s: Session, body: seq<string>)
    requires s.live && s.inData && |s.buf| <= SIZE_CAP + 1 < |s.buf| + |Wire(body)|
    ensures !Feed(cfg, parse, s, Stuffed(body)).live && Feed(cfg, parse, s, Stuffed(body)).spool == s.spool
    decreases |body|
  {
    FirstBodyLine(cfg, parse, s, body);
    var next := DataLine(s, Stuff(body[0]));
    if next.live {
      assert |body[0] + CRLF + Wire(body[1..])| == |body[0]| + 2 + |Wire(body[1..])|;
      BodyTooLong(cfg, parse, next, body[1..]);
    } else {
      DeadStaysDead(cfg, parse, next, Stuffed(body[1..]));
    }
  }

  /** Any list of lines, sent as the protocol prescribes, is spooled exactly if it fits in one byte more than the
      advertised size; then the spool holds those lines, each followed by CRLF, and the session is ready for the
      next message. Otherwise nothing is spooled and the session ends. */
  lemma {:induction false} MessageTransparent(cfg: Config, parse: Parser, s: Session, body: seq<string>)
    requires s.live && s.inData && s.buf == "" && s.authed != "" && s.from != "" && s.rcpts != [] && Allowed(cfg, s.from)
    ensures var r := Feed(cfg, parse, s, Stuffed(body) + [Line(".", true)]);
      if |Wire(body)| <= SIZE_CAP + 1 then
        r == s.(spool := s.spool + [Mail(s.from, s.rcpts, Wire(body))], replies := s.replies + [250],
                from := "", rcpts := [], buf := "", inData := false)
      else !r.live && r.spool == s.spool
  {
    var dot := [Line(".", true)];
    FeedAppend(cfg, parse, s, Stuffed(body), dot);
    var t := Feed(cfg, parse, s, Stuffed(body));
    if |Wire(body)| <= SIZE_CAP + 1 {
      BodyFits(cfg, parse, s, body);
      assert s.buf + Wire(body) == Wire(body);
      OneLine(cfg, parse, t, dot[0]);
    } else {
      BodyTooLong(cfg, parse, s, body);
      DeadStaysDead(cfg, parse, t, dot);
    }
  }

  /** The relay's unstuffing departs from the standard's on exactly the lines a conforming sender never sends:
      a single leading dot followed by something else. */
  lemma {:induction false} UnstuffStandardExactlyWhen(line: string)
    requires line != "."
    ensures Unstuff(line) == UnstuffByStandard(line) <==> !(|line| >= 2 && line[0] == '.' && line[1] != '.')
  {
    if |line| >= 2 && line[0] == '.' && line[1] != '.' {
      assert |Unstuff(line)| != |UnstuffByStandard(line)|;
    }
  }

  // ----- Whole sessions -----

  /** A message with the lines a client uses to submit it. */
  datatype Submitted = Submitted(mailLine: string, from: string, rcptLines: seq<string>, rcpts: seq<string>,
                                 dataLine: string, body: seq<string>)

  /** The lines mean what they should under the session's parser, and the relay's rules permit the message. */
  ghost predicate Proper(cfg: Config, parse: Parser, m: Submitted) {
    && parse(m.mailLine) == MailFrom(m.from) && m.from != "" && Allowed(cfg, m.from)
    && |m.rcptLines| == |m.rcpts| > 0
    && (forall i :: 0 <= i < |m.rcpts| ==> parse(m.rcptLines[i]) == RcptTo(m.rcpts[i]) && m.rcpts[i] != "")
    && parse(m.dataLine) == Data
    && |Wire(m.body)| <= SIZE_CAP + 1
  }

  function Recipients(lines: seq<string>): seq<Line> {
    if lines == [] then [] else [Line(lines[0], true)] + Recipients(lines[1..])
  }

  function Transcript(m: Submitted): seq<Line> {
    [Line(m.mailLine, true)] + Recipients(m.rcptLines) + [Line(m.dataLine, true)] + (Stuffed(m.body) + [Line(".", true)])
  }

  function Transcripts(ms: seq<Submitted>): seq<Line> {
    if ms == [] then [] else Transcript(ms[0]) + Transcripts(ms[1..])
  }

  function Delivered(ms: seq<Submitted>): seq<Mail> {
    if ms == [] then [] else [Mail(ms[0].from, ms[0].rcpts, Wire(ms[0].body))] + Delivered(ms[1..])
  }

  /** An authenticated session between two messages. */
  ghost predicate Ready(s: Session) {
    s.live && !s.inData && s.buf == "" && s.authed != "" && s.rcpts == []
  }

  /** The replies to `n` recipient commands when `have` recipients are already there. */
  function RcptReplies(have: nat, n: nat): seq<int>
    decreases n
  {
    if n == 0 then [] else [if have + 1 > RCPT_CAP then 452 else 250] + RcptReplies(have + 1, n - 1)
  }

  /** Every recipient command adds its recipient; those beyond the cap are answered 452 and kept all the same. */
  lemma {:induction false} RecipientsAccumulate(cfg: Config, parse: Parser, s: Session, lines: seq<string>, rcpts: seq<string>)
    requires s.live && !s.inData && s.from != "" && |lines| == |rcpts|
    requires forall i :: 0 <= i < |rcpts| ==> parse(lines[i]) == RcptTo(rcpts[i]) && rcpts[i] != ""
    ensures Feed(cfg, parse, s, Recipients(lines)) == WithRecipients(s, rcpts)
    decreases |lines|
  {
    if lines == [] {
      assert s.rcpts + rcpts == s.rcpts && s.replies + RcptReplies(|s.rcpts|, 0) == s.replies;
    } else {
      FirstRecipient(cfg, parse, s, lines, rcpts[0]);
      RecipientsAccumulate(cfg, parse, OneRecipient(s, rcpts[0]), lines[1..], rcpts[1..]);
      OneMoreRecipient(s, rcpts[0], rcpts[1..]);
      assert [rcpts[0]] + rcpts[1..] == rcpts;
    }
  }

  /** `s` with `rcpts` added, one reply each. */
  function WithRecipients(s: Session, rcpts: seq<string>): Session {
    s.(rcpts := s.rcpts + rcpts, replies := s.replies + RcptReplies(|s.rcpts|, |rcpts|))
  }

  lemma {:induction false} OneMoreRecipient(s: Session, rcpt: string, rest: seq<string>)
    ensures WithRecipients(OneRecipient(s, rcpt), rest) == WithRecipients(s, [rcpt] + rest)
  {
    var code := if |s.rcpts| + 1 > RCPT_CAP then 452 else 250;
    var later := RcptReplies(|s.rcpts| + 1, |rest|);
    assert s.rcpts + [rcpt] + rest == s.rcpts + ([rcpt] + rest);
    assert s.replies + [code] + later == s.replies + ([code] + later);
  }

  function OneRecipient(s: Session, rcpt: string): Session {
    s.(rcpts := s.rcpts + [rcpt], replies := s.replies + [if |s.rcpts| + 1 > RCPT_CAP then 452 else 250])
  }

  lemma {:induction false} FirstRecipient(cfg: Config, parse: Parser, s: Session, lines: seq<string>, rcpt: string)
    requires s.live && !s.inData && s.from != "" && lines != [] && parse(lines[0]) == RcptTo(rcpt) && rcpt != ""
    ensures Feed(cfg, parse, s, Recipients(lines)) == Feed(cfg, parse, OneRecipient(s, rcpt), Recipients(lines[1..]))
  {
    var line := Line(lines[0], true);
    assert Recipients(lines) == [line] + Recipients(lines[1..]);
    assert Recipients(lines)[0] == line && Recipients(lines)[1..] == Recipients(lines[1..]);
  }

  lemma {:induction false} OneLine(cfg: Config, parse: Parser, s: Session, line: Line)
    ensures Feed(cfg, parse, s, [line]) == Step(cfg, parse, s, line)
  {
    assert [line][1..] == [];
  }

  /** The envelope commands put the session into message data with that sender and those recipients. */
  lemma {:induction false} EnvelopeAccepted(cfg: Config, parse: Parser, s: Session, m: Submitted)
    requires Ready(s) && Proper(cfg, parse, m)
    ensures var t := Feed(cfg, parse, s, [Line(m.mailLine, true)] + Recipients(m.rcptLines) + [Line(m.dataLine, true)]);
      t == s.(from := m.from, rcpts := m.rcpts, inData := true, replies := t.replies)
  {
    ThreeParts(cfg, parse, s, [Line(m.mailLine, true)], Recipients(m.rcptLines), [Line(m.dataLine, true)]);
    OneLine(cfg, parse, s, Line(m.mailLine, true));
    var s1 := Reply(s.(from := m.from), 250);
    assert Step(cfg, parse, s, Line(m.mailLine, true)) == s1;
    RecipientsAccumulate(cfg, parse, s1, m.rcptLines, m.rcpts);
    assert s1.rcpts + m.rcpts == m.rcpts;
    OneLine(cfg, parse, Feed(cfg, parse, s1, Recipients(m.rcptLines)), Line(m.dataLine, true));
  }

  lemma {:induction false} ThreeParts(cfg: Config, parse: Parser, s: Session, a: seq<Line>, b: seq<Line>, c: seq<Line>)
    ensures Feed(cfg, parse, s, a + b + c) == Feed(cfg, parse, Feed(cfg, parse, Feed(cfg, parse, s, a), b), c)
  {
    FeedAppend(cfg, parse, s, a + b, c);
    FeedAppend(cfg, parse, s, a, b);
  }

  lemma {:induction false} OneMessage(cfg: Config, parse: Parser, s: Session, m: Submitted)
    requires Ready(s) && Proper(cfg, parse, m)
    ensures var r := Feed(cfg, parse, s, Transcript(m));
      Ready(r) && r.authed == s.authed && r.spool == s.spool + [Mail(m.from, m.rcpts, Wire(m.body))]
  {
    var envelope := [Line(m.mailLine, true)] + Recipients(m.rcptLines) + [Line(m.dataLine, true)];
    var rest := Stuffed(m.body) + [Line(".", true)];
    FeedAppend(cfg, parse, s, envelope, rest);
    EnvelopeAccepted(cfg, parse, s, m);
    MessageTransparent(cfg, parse, Feed(cfg, parse, s, envelope), m.body);
  }

  /** Any number of messages submitted over one authenticated session arrive in the spool in order, each with its
      own sender, recipients and lines. */
  lemma {:induction false} SessionDelivers(cfg: Config, parse: Parser, s: Session, ms: seq<Submitted>)
    requires Ready(s) && forall i :: 0 <= i < |ms| ==> Proper(cfg, parse, ms[i])
    ensures var r := Feed(cfg, parse, s, Transcripts(ms));
      Ready(r) && r.spool == s.spool + Delivered(ms)
    decreases |ms|
  {
    if ms == [] {
      assert s.spool + Delivered(ms) == s.spool;
    } else {
      OneMessage(cfg, parse, s, ms[0]);
      SessionDelivers(cfg, parse, Feed(cfg, parse, s, Transcript(ms[0])), ms[1..]);
      SpoolInOrder(
        cfg, parse, s, Transcript(ms[0]), Transcripts(ms[1..]),
        [Mail(ms[0].from, ms[0].rcpts, Wire(ms[0].body))], Delivered(ms[1..]));
    }
  }

  lemma {:induction false} SpoolInOrder(cfg: Config, parse: Parser, s: Session, a: seq<Line>, b: seq<Line>, x: seq<Mail>, y: seq<Mail>)
    requires Feed(cfg, parse, s, a).spool == s.spool + x
    requires var t := Feed(cfg, parse, s, a); Ready(Feed(cfg, parse, t, b)) && Feed(cfg, parse, t, b).spool == t.spool + y
    ensures Ready(Feed(cfg, parse, s, a + b)) && Feed(cfg, parse, s, a + b).spool == s.spool + (x + y)
  {
    FeedAppend(cfg, parse, s, a, b);
  }

  /** One complete message respects the recipient cap exactly when the client stops at it. */
  lemma {:induction false} MessageCapExactlyWhen(cfg: Config, parse: Parser, s: Session, m: Submitted)
    requires Ready(s) && Proper(cfg, parse, m)
    ensures var r := Feed(cfg, parse, s, Transcript(m));
      && |r.spool| == |s.spool| + 1
      && (|r.spool[|s.spool|].rcpts| <= RCPT_CAP <==> |m.rcptLines| <= RCPT_CAP)
  {
    OneMessage(cfg, parse, s, m);
  }

  /** Twenty-six recipients in one envelope: the last is answered 452, and the spooled message has all of them. */
  lemma {:induction false} TwentySixWitness(cfg: Config, parse: Parser, s: Session, m: Submitted)
    requires Ready(s) && Proper(cfg, parse, m) && |m.rcpts| == 26
    ensures |RcptReplies(0, 26)| == 26 && RcptReplies(0, 26)[24] == 250 && RcptReplies(0, 26)[25] == 452
    ensures |Feed(cfg, parse, s, Transcript(m)).spool| == |s.spool| + 1
    ensures |Feed(cfg, parse, s, Transcript(m)).spool[|s.spool|].rcpts| == 26
  {
    RcptReplyAt(0, 26, 24);
    RcptReplyAt(0, 26, 25);
    OneMessage(cfg, parse, s, m);
  }

  lemma {:induction false} RcptReplyAt(have: nat, n: nat, i: nat)
    requires i < n
    ensures |RcptReplies(have, n)| == n
    ensures RcptReplies(have, n)[i] == if have + i + 1 > RCPT_CAP then 452 else 250
    decreases n
  {
    if n > 1 {
      RcptReplyAt(have + 1, n - 1, if i > 0 then i - 1 else 0);
    }
  }

  /** Ten lines that make a message of one byte more than the advertised size: it is accepted and spooled. */
  lemma {:induction false} OverrunWitness(cfg: Config, parse: Parser, s: Session)
    requires s.live && s.inData && s.buf == "" && s.authed != "" && s.from != "" && s.rcpts != [] && Allowed(cfg, s.from)
    ensures var body := Same(Filler(1048574), 9) + [Filler(1048575)];
      var r := Feed(cfg, parse, s, Stuffed(body) + [Line(".", true)]);
      && |Wire(body)| == SIZE_CAP + 1
      && r.spool == s.spool + [Mail(s.from, s.rcpts, Wire(body))]
  {
    var body := Same(Filler(1048574), 9) + [Filler(1048575)];
    WireOfSame(Filler(1048574), 9);
    WireAppend(Same(Filler(1048574), 9), Filler(1048575));
    MessageTransparent(cfg, parse, s, body);
  }

  function Filler(n: nat): (r: string)
    ensures |r| == n
  {
    seq(n, _ => 'x')
  }

  function Same(line: string, k: nat): seq<string> {
    if k == 0 then [] else Same(line, k - 1) + [line]
  }

  lemma {:induction false} WireAppend(body: seq<string>, line: string)
    ensures |Wire(body + [line])| == |Wire(body)| + |line| + 2
    decreases |body|
  {
    if body == [] {
      assert [line][1..] == [];
    } else {
      assert (body + [line])[1..] == body[1..] + [line];
      WireAppend(body[1..], line);
    }
  }

  lemma {:induction false} WireOfSame(line: string, k: nat)
    ensures |Wire(Same(line, k))| == k * (|line| + 2)
  {
    if k > 0 {
      WireOfSame(line, k - 1);
      WireAppend(Same(line, k - 1), line);
    }
  }

  // ----- What a spooled message is made of, whatever the client sends -----

  /** The session before line `n`. */
  function At(cfg: Config, parse: Parser, lines: seq<Line>, n: nat): Session
    requires n <= |lines|
  {
    Feed(cfg, parse, FRESH, lines[..n])
  }

  lemma {:induction false} AtNext(cfg: Config, parse: Parser, lines: seq<Line>, n: nat)
    requires n < |lines|
    ensures At(cfg, parse, lines, n + 1) == Step(cfg, parse, At(cfg, parse, lines, n), lines[n])
  {
    assert lines[..n + 1] == lines[..n] + [lines[n]];
    FeedAppend(cfg, parse, FRESH, lines[..n], [lines[n]]);
    OneLine(cfg, parse, At(cfg, parse, lines, n), lines[n]);
  }

  /** Line `i` ends a message that goes into the spool. */
  predicate Spools(cfg: Config, parse: Parser, lines: seq<Line>, i: nat)
    requires i < |lines|
  {
    At(cfg, parse, lines, i).inData && |At(cfg, parse, lines, i + 1).spool| > |At(cfg, parse, lines, i).spool|
  }

  /** Line `i` is obeyed as this command. */
  predicate Commands(cfg: Config, parse: Parser, lines: seq<Line>, i: nat, c: Command)
    requires i < |lines|
  {
    At(cfg, parse, lines, i).live && !At(cfg, parse, lines, i).inData && parse(lines[i].text) == c
  }

  /** Line `i` is a RSET, a STARTTLS that succeeds, or the end of a spooled message. */
  predicate Clears(cfg: Config, parse: Parser, lines: seq<Line>, i: nat)
    requires i < |lines|
  {
    || Spools(cfg, parse, lines, i)
    || Commands(cfg, parse, lines, i, Rset)
    || GoesEncrypted(cfg, parse, lines, i)
  }

  /** The position after the last such line among the first `n`. */
  function LastClear(cfg: Config, parse: Parser, lines: seq<Line>, n: nat): (j: nat)
    requires n <= |lines|
    ensures j <= n
  {
    if n == 0 then 0
    else if Clears(cfg, parse, lines, n - 1) then n
    else LastClear(cfg, parse, lines, n - 1)
  }

  /** The recipient line `i` gives, if it is a RCPT with an address while there is a sender. */
  function RecipientOf(cfg: Config, parse: Parser, lines: seq<Line>, i: nat): seq<string>
    requires i < |lines|
  {
    var c := parse(lines[i].text);
    if c.RcptTo? && c.addr != "" && Commands(cfg, parse, lines, i, c) && At(cfg, parse, lines, i).from != "" then [c.addr] else []
  }

  function RecipientsBetween(cfg: Config, parse: Parser, lines: seq<Line>, j: nat, n: nat): seq<string>
    requires n <= |lines|
  {
    if n <= j then [] else RecipientsBetween(cfg, parse, lines, j, n - 1) + RecipientOf(cfg, parse, lines, n - 1)
  }

  /** Line `i` is a MAIL of an authenticated client. */
  predicate NamesSender(cfg: Config, parse: Parser, lines: seq<Line>, i: nat)
    requires i < |lines|
  {
    var c := parse(lines[i].text);
    c.MailFrom? && Commands(cfg, parse, lines, i, c) && At(cfg, parse, lines, i).authed != ""
  }

  /** The position after the last such line in [j, n), or `j`. */
  function LastMail(cfg: Config, parse: Parser, lines: seq<Line>, j: nat, n: nat): (k: nat)
    requires j <= n <= |lines|
    ensures j <= k <= n && (k > j ==> NamesSender(cfg, parse, lines, k - 1))
  {
    if n == j then j
    else if NamesSender(cfg, parse, lines, n - 1) then n
    else LastMail(cfg, parse, lines, j, n - 1)
  }

  function SenderBetween(cfg: Config, parse: Parser, lines: seq<Line>, j: nat, n: nat): string
    requires j <= n <= |lines|
  {
    var k := LastMail(cfg, parse, lines, j, n);
    if k == j then "" else parse(lines[k - 1].text).addr
  }

  lemma {:induction false} ClearedAfter(cfg: Config, parse: Parser, lines: seq<Line>, i: nat)
    requires i < |lines| && Clears(cfg, parse, lines, i)
    ensures At(cfg, parse, lines, i + 1).rcpts == [] && At(cfg, parse, lines, i + 1).from == ""
  {
    AtNext(cfg, parse, lines, i);
  }

  lemma {:induction false} KeptAfter(cfg: Config, parse: Parser, lines: seq<Line>, i: nat)
    requires i < |lines| && !Clears(cfg, parse, lines, i)
    ensures var s, t := At(cfg, parse, lines, i), At(cfg, parse, lines, i + 1);
      && t.rcpts == s.rcpts + RecipientOf(cfg, parse, lines, i)
      && t.from == if NamesSender(cfg, parse, lines, i) then parse(lines[i].text).addr else s.from
  {
    AtNext(cfg, parse, lines, i);
  }

  lemma {:induction false} NextSender(cfg: Config, parse: Parser, lines: seq<Line>, j: nat, n: nat)
    requires j <= n < |lines|
    ensures SenderBetween(cfg, parse, lines, j, n + 1) ==
      if NamesSender(cfg, parse, lines, n) then parse(lines[n].text).addr else SenderBetween(cfg, parse, lines, j, n)
  {
  }

  /** The session before line `n` has the recipients accepted, and the sender last named, in [j, n). */
  predicate EnvelopeSince(cfg: Config, parse: Parser, lines: seq<Line>, j: nat, n: nat)
    requires j <= n <= |lines|
  {
    && At(cfg, parse, lines, n).rcpts == RecipientsBetween(cfg, parse, lines, j, n)
    && At(cfg, parse, lines, n).from == SenderBetween(cfg, parse, lines, j, n)
  }

  lemma {:induction false} EnvelopeKept(cfg: Config, parse: Parser, lines: seq<Line>, j: nat, n: nat)
    requires j <= n < |lines| && EnvelopeSince(cfg, parse, lines, j, n) && !Clears(cfg, parse, lines, n)
    ensures EnvelopeSince(cfg, parse, lines, j, n + 1)
  {
    KeptAfter(cfg, parse, lines, n);
    NextSender(cfg, parse, lines, j, n);
  }

  lemma {:induction false} EnvelopeRestarted(cfg: Config, parse: Parser, lines: seq<Line>, n: nat)
    requires n < |lines| && Clears(cfg, parse, lines, n)
    ensures EnvelopeSince(cfg, parse, lines, n + 1, n + 1)
  {
    ClearedAfter(cfg, parse, lines, n);
  }

  /** At every point of every session the recipients are those accepted, and the sender the last one named, since
      the last line that clears the envelope. */
  lemma {:induction false} EnvelopeExactly(cfg: Config, parse: Parser, lines: seq<Line>, n: nat)
    requires n <= |lines|
    ensures EnvelopeSince(cfg, parse, lines, LastClear(cfg, parse, lines, n), n)
  {
    if n > 0 {
      EnvelopeExactly(cfg, parse, lines, n - 1);
      if Clears(cfg, parse, lines, n - 1) {
        EnvelopeRestarted(cfg, parse, lines, n - 1);
      } else {
        EnvelopeKept(cfg, parse, lines, LastClear(cfg, parse, lines, n - 1), n - 1);
      }
    }
  }

  /** So every spooled message goes to exactly the recipients accepted since the last clearing line. */
  lemma {:induction false} SpooledExactly(cfg: Config, parse: Parser, lines: seq<Line>, n: nat)
    requires n < |lines| && Spools(cfg, parse, lines, n)
    ensures var j, s := LastClear(cfg, parse, lines, n), At(cfg, parse, lines, n);
      At(cfg, parse, lines, n + 1).spool == s.spool
        + [Mail(SenderBetween(cfg, parse, lines, j, n), RecipientsBetween(cfg, parse, lines, j, n), s.buf)]
  {
    EnvelopeExactly(cfg, parse, lines, n);
    AtNext(cfg, parse, lines, n);
  }

  /** The recipient cap does not cap: in every session, a message the relay spools respects it exactly when no more
      recipients than that were accepted since the last clearing line, over however many MAIL commands. */
  lemma {:induction false} RecipientCapExactlyWhen(cfg: Config, parse: Parser, lines: seq<Line>, n: nat)
    requires n < |lines| && Spools(cfg, parse, lines, n)
    ensures var j := LastClear(cfg, parse, lines, n);
      var spool := At(cfg, parse, lines, n + 1).spool;
      && spool != []
      && (|spool[|spool| - 1].rcpts| <= RCPT_CAP <==> |RecipientsBetween(cfg, parse, lines, j, n)| <= RCPT_CAP)
  {
    SpooledExactly(cfg, parse, lines, n);
  }

  lemma {:induction false} RecipientsSplit(cfg: Config, parse: Parser, lines: seq<Line>, j: nat, k: nat, n: nat)
    requires j <= k <= n <= |lines|
    ensures RecipientsBetween(cfg, parse, lines, j, n)
         == RecipientsBetween(cfg, parse, lines, j, k) + RecipientsBetween(cfg, parse, lines, k, n)
  {
    if k < n {
      RecipientsSplit(cfg, parse, lines, j, k, n - 1);
      var a, b := RecipientsBetween(cfg, parse, lines, j, k), RecipientsBetween(cfg, parse, lines, k, n - 1);
      var c := RecipientOf(cfg, parse, lines, n - 1);
      assert RecipientsBetween(cfg, parse, lines, j, n) == (a + b) + c;
      assert RecipientsBetween(cfg, parse, lines, k, n) == b + c;
      Regroup(a, b, c);
    } else {
      assert RecipientsBetween(cfg, parse, lines, k, n) == [];
    }
  }

  lemma {:induction false} Regroup(a: seq<string>, b: seq<string>, c: seq<string>)
    ensures (a + b) + c == a + (b + c)
  {
  }

  /** A spooled message goes only to recipients given after its own MAIL exactly when none had been accepted between
      the last clearing line and that MAIL: a second MAIL does not drop the recipients of the first. */
  lemma {:induction false} OwnRecipientsExactlyWhen(cfg: Config, parse: Parser, lines: seq<Line>, n: nat)
    requires n < |lines| && Spools(cfg, parse, lines, n)
    ensures var j := LastClear(cfg, parse, lines, n);
      var k := LastMail(cfg, parse, lines, j, n);
      At(cfg, parse, lines, n).rcpts == RecipientsBetween(cfg, parse, lines, k, n)
      <==> RecipientsBetween(cfg, parse, lines, j, k) == []
  {
    var j := LastClear(cfg, parse, lines, n);
    EnvelopeExactly(cfg, parse, lines, n);
    RecipientsSplit(cfg, parse, lines, j, LastMail(cfg, parse, lines, j, n), n);
  }

  /** MAIL a, RCPT p, MAIL b, RCPT q, DATA and an empty message: what is spooled has sender b and both recipients. */
  lemma {:induction false} CarriedOverWitness(cfg: Config, parse: Parser, s: Session, mailA: string, rcptP: string,
                                              mailB: string, rcptQ: string, data: string)
    requires Ready(s) && Allowed(cfg, "b")
    requires parse(mailA) == MailFrom("a") && parse(rcptP) == RcptTo("p")
    requires parse(mailB) == MailFrom("b") && parse(rcptQ) == RcptTo("q") && parse(data) == Data
    ensures var lines := [Line(mailA, true), Line(rcptP, true)] + [Line(mailB, true), Line(rcptQ, true)]
                         + [Line(data, true), Line(".", true)];
      Feed(cfg, parse, s, lines).spool == s.spool + [Mail("b", ["p", "q"], "")]
  {
    var first, second := [Line(mailA, true), Line(rcptP, true)], [Line(mailB, true), Line(rcptQ, true)];
    var last := [Line(data, true), Line(".", true)];
    ThreeParts(cfg, parse, s, first, second, last);
    TwoLines(cfg, parse, s, first);
    var t := Feed(cfg, parse, s, first);
    assert t.from == "a" && t.rcpts == ["p"];
    TwoLines(cfg, parse, t, second);
    var u := Feed(cfg, parse, t, second);
    assert u.from == "b" && u.rcpts == ["p", "q"];
    TwoLines(cfg, parse, u, last);
  }

  lemma {:induction false} TwoLines(cfg: Config, parse: Parser, s: Session, lines: seq<Line>)
    requires |lines| == 2
    ensures Feed(cfg, parse, s, lines) == Step(cfg, parse, Step(cfg, parse, s, lines[0]), lines[1])
  {
    assert lines[1..] == [lines[1]];
    OneLine(cfg, parse, Step(cfg, parse, s, lines[0]), lines[1]);
  }

  // ----- Who the client is, whatever it sends -----

  /** Line `i` is an AUTH PLAIN with the password on record for its user. */
  predicate ProvesIdentity(cfg: Config, parse: Parser, lines: seq<Line>, i: nat)
    requires i < |lines|
  {
    var c := parse(lines[i].text);
    && Commands(cfg, parse, lines, i, c)
    && c.AuthPlain? && c.credentials.Some?
    && c.credentials.value.0 in cfg.users && c.credentials.value.1 == cfg.users[c.credentials.value.0]
  }

  function ClaimedUser(parse: Parser, line: Line): string {
    var c := parse(line.text);
    if c.AuthPlain? && c.credentials.Some? then c.credentials.value.0 else ""
  }

  /** Line `i` is a STARTTLS that succeeds. */
  predicate GoesEncrypted(cfg: Config, parse: Parser, lines: seq<Line>, i: nat)
    requires i < |lines|
  {
    Commands(cfg, parse, lines, i, StartTLS) && cfg.tls && lines[i].succeeds
  }

  /** The last line among the first `n` that proves an identity, with no STARTTLS succeeding after it. */
  function Proof(cfg: Config, parse: Parser, lines: seq<Line>, n: nat): (i: Option<nat>)
    requires n <= |lines|
    ensures i.Some? ==> i.value < n && ProvesIdentity(cfg, parse, lines, i.value)
    ensures i.Some? ==> forall j :: i.value < j < n ==> !GoesEncrypted(cfg, parse, lines, j) && !ProvesIdentity(cfg, parse, lines, j)
  {
    if n == 0 || GoesEncrypted(cfg, parse, lines, n - 1) then None
    else if ProvesIdentity(cfg, parse, lines, n - 1) then Some(n - 1)
    else Proof(cfg, parse, lines, n - 1)
  }

  lemma {:induction false} IdentityAfter(cfg: Config, parse: Parser, lines: seq<Line>, i: nat)
    requires i < |lines|
    ensures At(cfg, parse, lines, i + 1).authed ==
      if GoesEncrypted(cfg, parse, lines, i) then ""
      else if ProvesIdentity(cfg, parse, lines, i) then ClaimedUser(parse, lines[i])
      else At(cfg, parse, lines, i).authed
  {
    AtNext(cfg, parse, lines, i);
  }

  /** At every point of every session the client is the user of the last AUTH PLAIN that carried the right password
      since the last successful STARTTLS, and nobody if there is none. */
  lemma {:induction false} IdentityExactly(cfg: Config, parse: Parser, lines: seq<Line>, n: nat)
    requires n <= |lines|
    ensures var i := Proof(cfg, parse, lines, n);
      At(cfg, parse, lines, n).authed == if i.Some? then ClaimedUser(parse, lines[i.value]) else ""
  {
    if n > 0 {
      IdentityExactly(cfg, parse, lines, n - 1);
      IdentityAfter(cfg, parse, lines, n - 1);
    }
  }

  /** So every spooled message comes after an AUTH PLAIN with the right password for its user, in the same encrypted
      stretch of the session. */
  lemma {:induction false} SpooledByProvenUser(cfg: Config, parse: Parser, lines: seq<Line>, n: nat)
    requires n < |lines| && Spools(cfg, parse, lines, n)
    ensures exists i :: 0 <= i < n
              && ProvesIdentity(cfg, parse, lines, i) && ClaimedUser(parse, lines[i]) != ""
              && (forall j :: i < j < n ==> !GoesEncrypted(cfg, parse, lines, j))
  {
    AtNext(cfg, parse, lines, n);
    IdentityExactly(cfg, parse, lines, n);
    var i := Proof(cfg, parse, lines, n);
    assert At(cfg, parse, lines, n).authed != "";
    assert i.Some?;
  }

  /** An AUTH PLAIN is answered 235 and the session goes on exactly if somebody is authenticated after it: on a session
      without a user that takes the right password, and otherwise it ends with 535; on one with a user a wrong
      password changes nothing and is answered 235 all the same. */
  lemma {:induction false} AuthAnswered(cfg: Config, parse: Parser, s: Session, line: Line, user: string, password: string)
    requires s.live && !s.inData && parse(line.text) == AuthPlain(Some((user, password)))
    ensures var t := Step(cfg, parse, s, line);
      var right := user in cfg.users && password == cfg.users[user];
      && t == s.(authed := t.authed, live := t.live, replies := t.replies)
      && t.authed == (if right then user else s.authed)
      && t.live == (t.authed != "")
      && t.replies == s.replies + [if t.authed != "" then 235 else 535]
  {
  }

  /** A wrong password on a fresh session: 535, and the session is over. */
  lemma {:induction false} WrongPasswordWitness(parse: Parser, auth: string)
    requires parse(auth) == AuthPlain(Some(("ann", "guess")))
    ensures var cfg := Config(map["ann" := "secret"], [], false);
      var t := Feed(cfg, parse, FRESH, [Line(auth, true)]);
      t.authed == "" && !t.live && t.replies == [220, 535]
  {
    OneLine(Config(map["ann" := "secret"], [], false), parse, FRESH, Line(auth, true));
  }

  /** A wrong password on a session that already has a user: 235, and the session goes on under the old user. */
  lemma {:induction false} SecondGuessWitness(cfg: Config, parse: Parser, s: Session, auth: string)
    requires s.live && !s.inData && s.authed == "ann" && cfg.users == map["ann" := "secret"]
    requires parse(auth) == AuthPlain(Some(("bob", "guess")))
    ensures Feed(cfg, parse, s, [Line(auth, true)]) == s.(replies := s.replies + [235])
  {
    OneLine(cfg, parse, s, Line(auth, true));
  }

  // ----- The domain of a sender -----

  lemma {:induction false} LowerCharwise(s: string)
    ensures |Lower(s)| == |s| && forall i :: 0 <= i < |s| ==> Lower(s)[i] == if 'A' <= s[i] <= 'Z' then s[i] - 'A' + 'a' else s[i]
    decreases |s|
  {
    if s != "" {
      LowerCharwise(s[..|s| - 1]);
    }
  }

  /** A sender is allowed exactly if what follows its last at-sign, in lower case, is an allowed domain; one without an
      at-sign counts as the domain "invalid". */
  lemma {:induction false} AllowedExactlyWhen(cfg: Config, from: string, at: int)
    requires -1 <= at < |from| && (at >= 0 ==> from[at] == '@') && forall i :: at < i < |from| ==> from[i] != '@'
    ensures Allowed(cfg, from) <==> (if at >= 0 then Lower(from[at + 1..]) else "invalid") in cfg.allowedFrom
  {
    DomainScanned(from, |from|, at);
  }

  lemma {:induction false} DomainScanned(from: string, n: nat, at: int)
    requires -1 <= at < n <= |from| || at == -1 <= n == 0
    requires (at >= 0 ==> from[at] == '@') && forall i :: at < i < n ==> from[i] != '@'
    ensures DomainFrom(from, n) == if at >= 0 then Lower(from[at + 1..]) else "invalid"
  {
    if n > 0 && at < n - 1 {
      DomainScanned(from, n - 1, at);
    }
  }

  // ----- The answers -----

  /** Every command is answered, and which answer it gets. */
  lemma {:induction false} CommandAnswered(cfg: Config, s: Session, c: Command, succeeds: bool)
    ensures var t := Obey(cfg, s, c, succeeds);
      && |t.replies| > |s.replies| && t.replies[..|s.replies|] == s.replies
      && t.replies[|t.replies| - 1] ==
         match c
         case Hello | Rset | Noop => 250
         case StartTLS => if cfg.tls then 220 else 502
         case AuthMalformed | AuthLogin => 535
         case AuthPlain(_) => if t.authed != "" then 235 else 535
         case MailFrom(_) => if s.authed == "" then 530 else 250
         case RcptTo(_) => if s.from == "" then 503 else if |t.rcpts| > 25 then 452 else 250
         case Data => if s.from == "" || s.rcpts == [] then 503 else 354
         case Quit => 221
         case Unknown => 502
  {
  }

  /** What a line of message data leads to: 552 and the end of the session exactly when the message would pass ten
      megabytes by more than the one byte the check forgets; and at the end of the data the first check that fails. */
  lemma {:induction false} DataAnswered(cfg: Config, parse: Parser, s: Session, line: Line)
    requires s.live && s.inData
    ensures var t := Step(cfg, parse, s, line);
      var kept := if |line.text| >= 2 && line.text[..2] == ".." then |line.text| - 1 else |line.text|;
      if line.text != "." then
        if |s.buf| + kept + 2 > 10485761 then !t.live && t.replies == s.replies + [552]
        else t.live && t.replies == s.replies
      else
        var code := if s.authed == "" then 530 else if s.from == "" || s.rcpts == [] then 503
                    else if !Allowed(cfg, s.from) then 550 else if !line.succeeds then 451 else 250;
        t.replies == s.replies + [code] && (t.live <==> code == 250)
  {
  }
}
