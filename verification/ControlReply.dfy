/** Reading a reply from the BIRD control socket. What the daemon sends until it closes the socket is
    a string, a character for each byte. */
module ControlReply {

  const NEWLINE := '\n'

  predicate IsNumeric(c: char) {
    '0' <= c <= '9'
  }

  // ---------------------------------------------------------------------------------------
  // What a reply means, line by line.
  // ---------------------------------------------------------------------------------------

  /** The first line with its newline, and what follows; none if there is no newline. */
  function NextLine(s: string): (r: (string, string))
    ensures s == r.0 + r.1
    ensures r.0 == "" <==> NEWLINE !in s
    ensures r.0 != "" ==> r.0[|r.0| - 1] == NEWLINE && NEWLINE !in r.0[..|r.0| - 1]
  {
    if s == "" then ("", "")
    else if s[0] == NEWLINE then ([s[0]], s[1..])
    else
      var (line, rest) := NextLine(s[1..]);
      if line == "" then ("", s) else ([s[0]] + line, rest)
  }

  predicate HasCode(line: string) {
    |line| > 4 && forall i :: 0 <= i < 4 ==> IsNumeric(line[i])
  }

  /** The line's code says that no more follow. */
  predicate IsLast(line: string) {
    HasCode(line) && line[0] in ['0', '8', '9']
  }

  /** What a line says, without its status code or leading space. */
  function Text(line: string): string
    requires line != ""
  {
    if HasCode(line) then line[5..] else line[1..]
  }

  /** The text up to the last line of the reply or, without one, of all complete lines; and the rest. */
  function ReplyText(s: string): (string, string)
    decreases |s|
  {
    var (line, rest) := NextLine(s);
    if line == "" then ("", "")
    else if IsLast(line) then (Text(line), rest)
    else
      var (text, unread) := ReplyText(rest);
      (Text(line) + text, unread)
  }

  /** One line of a reply. */
  lemma {:induction false} ReplyStep(s: string)
    ensures var (line, rest) := NextLine(s);
            ReplyText(s) == if line == "" then ("", "")
                            else if IsLast(line) then (Text(line), rest)
                            else (Text(line) + ReplyText(rest).0, ReplyText(rest).1)
  {
  }

  /** What is left of the rest once so many bytes of it are gone. */
  function After(rest: string, gone: nat): string {
    rest[if gone < |rest| then gone else |rest|..]
  }

  function Contains(s: string, t: string): bool {
    t <= s || (s != "" && Contains(s[1..], t))
  }

  lemma {:induction false} ContainsMeans(s: string, t: string)
    ensures Contains(s, t) <==> exists i :: 0 <= i <= |s| && t <= s[i..]
  {
    assert s[0..] == s;
    if s != [] {
      ContainsMeans(s[1..], t);
      forall i | 0 <= i < |s|
        ensures s[i + 1..] == s[1..][i..]
      {
      }
      if i :| 0 < i <= |s| && t <= s[i..] {
        assert s[1..][i - 1..] == s[i..];
      }
    }
  }

  // ---------------------------------------------------------------------------------------
  // The connection.
  // ---------------------------------------------------------------------------------------

  lemma Joined(a: string, b: string, c: string)
    ensures a + (b + c) == (a + b) + c
  {
  }

  class BirdConn {
    var open: bool
    var incoming: string
    var sent: string
    ghost var restricted: bool

    constructor (incoming: string)
      ensures open && this.incoming == incoming && sent == "" && !restricted
    {
      open, this.incoming, sent, restricted := true, incoming, "", false;
    }

    /** The daemon sends some more. */
    method Deliver(more: string)
      modifies this`incoming
      ensures incoming == old(incoming) + more
    {
      incoming := incoming + more;
    }

    /** Each call has a buffered reader of its own, which may take from the socket, and lose, some
        of what comes after the reply. */
    method Read(wanted: bool, readAhead: nat) returns (output: string)
      modifies this`incoming
      ensures !open ==> output == "" && incoming == old(incoming)
      ensures open ==>
                var (text, unread) := ReplyText(old(incoming));
                && output == (if wanted then text else "")
                && incoming == After(unread, readAhead)
    {
      hide NextLine, ReplyText;
      output := "";
      if !open {
        return;
      }
      ghost var (all, unread) := ReplyText(incoming);
      var stream := incoming;
      while true
        invariant ReplyText(stream).1 == unread
        invariant if wanted then output + ReplyText(stream).0 == all else output == ""
        decreases |stream|
      {
        ReplyStep(stream);
        var (line, rest) := NextLine(stream);
        if line == "" {
          stream := "";
          break;
        }
        Joined(output, Text(line), ReplyText(rest).0);
        stream := rest;
        var lineLen := |line|;
        if lineLen > 4 && IsNumeric(line[0]) && IsNumeric(line[1]) && IsNumeric(line[2]) && IsNumeric(line[3]) {
          if wanted && lineLen > 5 {
            output := output + line[5..];
          }
          if line[0] == '0' || line[0] == '8' || line[0] == '9' {
            break;
          }
        } else if wanted {
          output := output + line[1..];
        }
      }
      incoming := After(stream, readAhead);
    }

    method Write(s: string) returns (ok: bool)
      modifies this`sent
      ensures ok == open && sent == if open then old(sent) + s + "\n" else old(sent)
    {
      if !open {
        return false;
      }
      sent := sent + s + "\n";
      return true;
    }

    method Close()
      modifies this`open
      ensures !open
    {
      open := false;
    }

    /** Asks for restricted mode; true exactly when the reply confirms it. */
    method Restrict(readAhead: nat) returns (confirmed: bool)
      modifies this`sent, this`incoming, this`restricted
      ensures confirmed <==> open && Contains(ReplyText(old(incoming)).0, "Access restricted")
      ensures restricted == (old(restricted) || confirmed)
      ensures open ==> incoming == After(ReplyText(old(incoming)).1, readAhead)
      ensures sent == if open then old(sent) + "restrict\n" else old(sent)
    {
      var ok := Write("restrict");
      if !ok {
        return false;
      }
      assert old(sent) + "restrict" + "\n" == old(sent) + "restrict\n";
      var reply := Read(true, readAhead);
      confirmed := Contains(reply, "Access restricted");
      restricted := restricted || confirmed;
    }

    /** A request, and the reply the daemon makes to it: however far the reader reads ahead, the whole
        reply comes out and nothing is lost, as long as the daemon says nothing unasked. */
    method Exchange(request: string, lines: seq<Line>, last: Line, readAhead: nat) returns (output: string)
      requires open && incoming == ""
      requires forall i :: 0 <= i < |lines| ==> lines[i].Valid() && !lines[i].Last()
      requires last.Valid() && last.Last()
      modifies this`sent, this`incoming
      ensures output == ContentAll(lines) + last.Content() && incoming == ""
      ensures sent == old(sent) + request + "\n"
    {
      hide ReplyText, WireAll, ContentAll;
      var _ := Write(request);
      Deliver(WireAll(lines) + last.Wire());
      ReplyReads(lines, last, "");
      Unasked(WireAll(lines) + last.Wire());
      output := Read(true, readAhead);
    }
  }

  // ---------------------------------------------------------------------------------------
  // The reply format, as the daemon writes it.
  // ---------------------------------------------------------------------------------------

  /** A line of a reply: without a code, with one and a text, or just a code. */
  datatype Line = Plain(text: string) | Coded(code: string, separator: char, text: string) | Bare(code: string) {
    predicate Valid() {
      match this
      case Plain(text) => NEWLINE !in text
      case Coded(code, separator, text) => ValidCode(code) && separator != NEWLINE && NEWLINE !in text
      case Bare(code) => ValidCode(code)
    }

    predicate Last() {
      !Plain? && code != "" && code[0] in ['0', '8', '9']
    }

    /** The line as it goes over the socket. */
    function Wire(): string {
      match this
      case Plain(text) => " " + text + "\n"
      case Coded(code, separator, text) => code + [separator] + text + "\n"
      case Bare(code) => code + "\n"
    }

    /** What a reader is to get from it. */
    function Content(): string {
      if Bare? then "" else text + "\n"
    }
  }

  predicate ValidCode(code: string) {
    |code| == 4 && forall i :: 0 <= i < 4 ==> IsNumeric(code[i])
  }

  function WireAll(lines: seq<Line>): string {
    if lines == [] then "" else lines[0].Wire() + WireAll(lines[1..])
  }

  function ContentAll(lines: seq<Line>): string {
    if lines == [] then "" else lines[0].Content() + ContentAll(lines[1..])
  }

  /** The first line of a string that starts with a whole one. */
  lemma {:induction false} NextLineIs(line: string, rest: string)
    requires NEWLINE !in line
    ensures NextLine(line + "\n" + rest) == (line + "\n", rest)
  {
    hide NextLine;
    var s := line + "\n" + rest;
    var (l, r) := NextLine(s);
    assert s[|line|] == NEWLINE && forall i :: 0 <= i < |line| ==> s[i] == line[i];
    assert s[|l| - 1] == NEWLINE && forall i :: 0 <= i < |l| - 1 ==> s[i] == l[..|l| - 1][i];
    assert |l| - 1 == |line|;
    assert s[..|line| + 1] == line + "\n" && s[|line| + 1..] == rest;
  }

  /** A line that starts with a code ends the reply if the code starts with 0, 8 or 9, and only then. */
  lemma {:induction false} CodedLine(code: string, separator: char, text: string, rest: string)
    requires |code| == 4 && forall i :: 0 <= i < 4 ==> '0' <= code[i] <= '9'
    requires separator != '\n' && '\n' !in text
    ensures ReplyText(code + [separator] + text + "\n" + rest)
            == if code[0] == '0' || code[0] == '8' || code[0] == '9' then (text + "\n", rest)
               else (text + "\n" + ReplyText(rest).0, ReplyText(rest).1)
  {
    var l := Coded(code, separator, text);
    LineReads(l, rest);
    ReplyStep(l.Wire() + rest);
    hide ReplyText, NextLine, Text, IsLast;
  }

  /** One that starts with a space never does, and all after the space is text. */
  lemma {:induction false} PlainLine(text: string, rest: string)
    requires '\n' !in text
    ensures ReplyText(" " + text + "\n" + rest) == (text + "\n" + ReplyText(rest).0, ReplyText(rest).1)
  {
    var l := Plain(text);
    LineReads(l, rest);
    ReplyStep(l.Wire() + rest);
    hide ReplyText, NextLine, Text, IsLast;
  }

  lemma {:induction false} LineReads(l: Line, rest: string)
    requires l.Valid()
    ensures NextLine(l.Wire() + rest) == (l.Wire(), rest) && l.Wire() != ""
    ensures Text(l.Wire()) == l.Content() && (IsLast(l.Wire()) <==> l.Last())
  {
    var wire := l.Wire();
    WireLine(l);
    NextLineIs(wire[..|wire| - 1], rest);
    WireText(l);
    hide NextLine;
  }

  lemma WireLine(l: Line)
    requires l.Valid()
    ensures var wire := l.Wire(); wire != "" && NEWLINE !in wire[..|wire| - 1] && wire[..|wire| - 1] + "\n" == wire
  {
    var wire := l.Wire();
    assert forall i :: 0 <= i < |wire| - 1 ==> wire[i] != NEWLINE;
  }

  lemma WireText(l: Line)
    requires l.Valid() && l.Wire() != ""
    ensures Text(l.Wire()) == l.Content() && (IsLast(l.Wire()) <==> l.Last())
  {
    match l
    case Plain(text) =>
      assert !HasCode(l.Wire()) && l.Wire()[1..] == text + "\n";
    case Coded(code, separator, text) =>
      assert l.Wire()[..4] == code && HasCode(l.Wire()) && l.Wire()[5..] == text + "\n";
    case Bare(code) =>
      assert l.Wire()[..4] == code && HasCode(l.Wire()) && l.Wire()[5..] == "";
  }

  /** Whatever the daemon writes, and whatever follows its last line, the reader gets the texts of
      its lines and stops there. */
  lemma {:induction false} ReplyReads(lines: seq<Line>, last: Line, rest: string)
    requires forall i :: 0 <= i < |lines| ==> lines[i].Valid() && !lines[i].Last()
    requires last.Valid() && last.Last()
    ensures ReplyText(WireAll(lines) + last.Wire() + rest) == (ContentAll(lines) + last.Content(), rest)
  {
    if lines == [] {
      LineReads(last, rest);
      ReplyStep(last.Wire() + rest);
      Nothing(last.Wire(), rest, last.Content());
      hide ReplyText, NextLine, Text, IsLast, Line.Wire, Line.Content, Line.Valid, Line.Last;
    } else {
      var after := WireAll(lines[1..]) + last.Wire() + rest;
      ReplyReads(lines[1..], last, rest);
      LineReads(lines[0], after);
      ReplyStep(lines[0].Wire() + after);
      hide ReplyText, NextLine, Text, IsLast, Line.Wire, Line.Content, Line.Valid, Line.Last;
      Regroup(lines[0].Wire(), WireAll(lines[1..]), last.Wire(), rest);
      Joined(lines[0].Content(), ContentAll(lines[1..]), last.Content());
    }
  }

  lemma Nothing(a: string, b: string, c: string)
    ensures "" + a + b == a + b && "" + c == c
  {
  }

  lemma Regroup(a: string, b: string, c: string, d: string)
    ensures (a + b) + c + d == a + (b + c + d)
  {
  }

  lemma Unasked(s: string)
    ensures "" + s == s && s + "" == s
  {
  }

  /** With two replies in the socket the first read gets the first and, exactly if it takes none of the
      second with it, leaves just the second, which the next read gets. */
  lemma {:induction false} TwoReplies(lines: seq<Line>, last: Line, lines': seq<Line>, last': Line, rest: string, readAhead: nat)
    requires forall i :: 0 <= i < |lines| ==> lines[i].Valid() && !lines[i].Last()
    requires forall i :: 0 <= i < |lines'| ==> lines'[i].Valid() && !lines'[i].Last()
    requires last.Valid() && last.Last() && last'.Valid() && last'.Last()
    ensures var second := WireAll(lines') + last'.Wire() + rest;
            var (text, unread) := ReplyText(WireAll(lines) + last.Wire() + second);
            && text == ContentAll(lines) + last.Content()
            && (After(unread, readAhead) == second <==> readAhead == 0)
            && ReplyText(After(unread, 0)) == (ContentAll(lines') + last'.Content(), rest)
  {
    hide ReplyText, WireAll, ContentAll, Line.Content;
    ReplyReads(lines', last', rest);
    ReplyReads(lines, last, WireAll(lines') + last'.Wire() + rest);
  }

  /** A socket closed before the last line yields the complete lines; an incomplete one is lost. */
  lemma {:induction false} CutOff(lines: seq<Line>, partial: string)
    requires forall i :: 0 <= i < |lines| ==> lines[i].Valid() && !lines[i].Last()
    requires NEWLINE !in partial
    ensures ReplyText(WireAll(lines) + partial) == (ContentAll(lines), "")
  {
    if lines == [] {
      ReplyStep(partial);
      Nothing(partial, "", "");
    } else {
      var after := WireAll(lines[1..]) + partial;
      CutOff(lines[1..], partial);
      LineReads(lines[0], after);
      ReplyStep(lines[0].Wire() + after);
      Joined(lines[0].Wire(), WireAll(lines[1..]), partial);
    }
    hide ReplyText, NextLine, Text, IsLast, Line.Wire, Line.Content, Line.Valid, Line.Last;
  }
}
