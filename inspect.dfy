/**
 * `showContainerIP`: select a container, run `docker inspect` with a template that
 * prints the IP address of every network the container is attached to, read the
 * first line of the answer with one `fgets` into a 128-byte buffer, and report it
 * unless it is empty or only a newline.
 *
 * What the inspect command writes is an input: `None` when the pipe could not be
 * opened, otherwise the whole text it wrote.
 *
 * `InspectHeadSplit`, `RegroupFive` and the three `NoSpace` lemmas for the template's
 * pieces hold without a proof; they are separate so that `InspectCommandWords` never
 * unfolds the long literal and stays within the verifier's resource limit.
 */
module Inspect {
  import opened Options
  import opened Text
  import opened Listing
  import opened Selection

  const ViewPrompt := "Select container to view IP"

  /** The Go template, single quotes included: every network's `.IPAddress`, one after the other. */
  const InspectFormat := RangeOpen + AddressField + RangeClose
  const RangeOpen := "'{{range.NetworkSettings.Networks}}"
  const AddressField := "{{.IPAddress}}"
  const RangeClose := "{{end}}'"

  const InspectFailedMessage := "Failed to inspect container.\n"
  const NoIpMessage := "No IP address found (container may be stopped or not attached to a network).\n"
  const IpPrefix := "Container IP Address: "

  /** The size of the buffer the answer is read into; `fgets` keeps one byte for the terminator. */
  const BufferSize := 128

  /** The inspect command for a selected id. */
  function InspectCommand(id: string): (command: string)
    ensures "docker inspect -f " + InspectFormat + " " <= command
    ensures |command| >= |id| && command[|command| - |id|..] == id
  {
    "docker inspect -f " + InspectFormat + " " + id
  }

  /** With a one-word id, the inspect command splits into five words: the template stays one word. */
  lemma InspectCommandWords(id: string)
    requires IsToken(id)
    ensures Words(InspectCommand(id)) == ["docker", "inspect", "-f", InspectFormat, id]
  {
    InspectCommandRegrouped(id);
    assert IsToken("docker") && IsToken("inspect") && IsToken("-f");
    InspectFormatIsOneWord();
    WordsOfFive("docker", "inspect", "-f", InspectFormat, id);
  }

  lemma InspectCommandRegrouped(id: string)
    ensures InspectCommand(id) == "docker" + (" " + ("inspect" + (" " + ("-f" + (" " + (InspectFormat + (" " + id)))))))
  {
    InspectHeadSplit();
    RegroupFive("docker inspect -f ", "docker", "inspect", "-f", InspectFormat, id);
  }

  lemma InspectHeadSplit()
    ensures "docker inspect -f " == "docker" + " " + "inspect" + " " + "-f" + " "
  {
  }

  /** Three words, each followed by a space, then two more words separated by a space. */
  lemma RegroupFive(head: string, a: string, b: string, c: string, d: string, e: string)
    requires head == a + " " + b + " " + c + " "
    ensures head + d + " " + e == a + (" " + (b + (" " + (c + (" " + (d + (" " + e)))))))
  {
  }

  /** The template has no white space, so the shell passes it on as one word. */
  lemma InspectFormatIsOneWord()
    ensures IsToken(InspectFormat)
  {
    RangeOpenNoSpace();
    AddressFieldNoSpace();
    RangeCloseNoSpace();
    NoSpaceAppend(RangeOpen, AddressField);
    NoSpaceAppend(RangeOpen + AddressField, RangeClose);
  }

  lemma RangeOpenNoSpace() ensures NoSpace(RangeOpen) {}
  lemma AddressFieldNoSpace() ensures NoSpace(AddressField) {}
  lemma RangeCloseNoSpace() ensures NoSpace(RangeClose) {}

  /**
   * What one `fgets(buffer, size, pipe)` stores: characters up to and including the
   * first newline, and at most `room` of them (`room` is the size less one).
   */
  function LineChunk(text: string, room: nat): (chunk: string)
    ensures chunk <= text
    ensures |chunk| <= room
    ensures '\n' in chunk ==> chunk[|chunk| - 1] == '\n' && '\n' !in chunk[..|chunk| - 1]
    ensures '\n' !in chunk ==> chunk == text || |chunk| == room
    ensures text != [] && room > 0 ==> chunk != []
  {
    if text == [] || room == 0 then []
    else if text[0] == '\n' then "\n"
    else
      var tail := LineChunk(text[1..], room - 1);
      assert ([text[0]] + tail)[1..] == tail;
      [text[0]] + tail
  }

  /** The line `showContainerIP` keeps: empty when the command wrote nothing. */
  function CapturedIp(text: string): (ip: string)
    ensures ip <= text && |ip| < BufferSize
    ensures ip == [] <==> text == []
    ensures '\n' in ip ==> ip[|ip| - 1] == '\n' && '\n' !in ip[..|ip| - 1]
  {
    if text == [] then "" else LineChunk(text, BufferSize - 1)
  }

  /** How the report ends: the pipe failed, no address, or the line read. */
  datatype IpReport = InspectFailed | NoIp | Address(ip: string)

  /** The emptiness check on what was read. */
  function ClassifyIp(inspected: Option<string>): (r: IpReport)
    ensures r.InspectFailed? <==> inspected.None?
    ensures r.NoIp? <==> inspected.Some? && (CapturedIp(inspected.value) == "" || CapturedIp(inspected.value) == "\n")
    ensures r.Address? ==> r.ip != "" && r.ip != "\n" && r.ip <= inspected.value && |r.ip| < BufferSize
  {
    if inspected.None? then InspectFailed
    else
      var ip := CapturedIp(inspected.value);
      if ip == "" || ip == "\n" then NoIp else Address(ip)
  }

  /** The line written for each outcome; an address is written as read, newline and all. */
  function IpMessage(r: IpReport): (message: string)
    ensures r.Address? ==> IpPrefix <= message && message[|IpPrefix|..] == r.ip
    ensures r.NoIp? ==> message == NoIpMessage
    ensures r.InspectFailed? ==> message == InspectFailedMessage
  {
    match r
    case InspectFailed => InspectFailedMessage
    case NoIp => NoIpMessage
    case Address(ip) => IpPrefix + ip
  }

  /**
   * `showContainerIP` over the listing pipe, the operator's input and what the inspect
   * command writes: the inspect command run, if any, the lines written, the unread input.
   */
  method ShowContainerIp(pipe: Option<seq<string>>, input: seq<int>, inspected: Option<string>)
    returns (command: Option<string>, out: seq<string>, rest: seq<int>)
    ensures var cs := ContainerList(pipe);
      var s := Select(cs, input);
      && (command.Some? <==> s.Chosen?)
      && (s.Chosen? ==> command == Some(InspectCommand(s.id)))
      && rest == Unread(cs, input)
      && out == SelectionOutput(cs, ViewPrompt, input) + (if s.Chosen? then [IpMessage(ClassifyIp(inspected))] else [])
  {
    var id;
    id, out, rest := SelectContainer(pipe, ViewPrompt, input);
    if pipe.Some? {
      SelectedIdEmptyIffNotChosen(pipe.value, input);
    }
    if id == "" {
      return None, out, rest;
    }
    command := Some(InspectCommand(id));
    if inspected.None? {
      out := out + [InspectFailedMessage];
      return;
    }
    var ip := "";
    if inspected.value != [] {
      ip := LineChunk(inspected.value, BufferSize - 1);
    }
    assert ip == CapturedIp(inspected.value);
    if ip == "" || ip == "\n" {
      out := out + [NoIpMessage];
    } else {
      out := out + [IpPrefix + ip];
    }
  }

  /** What the template prints for a container attached to networks with addresses `ips`, in order. */
  function TemplateOutput(ips: seq<string>): string
  {
    Concat(ips) + "\n"
  }

  /** The addresses run together, with nothing between them. */
  function Concat(ips: seq<string>): (joined: string)
    ensures joined == [] <==> forall i | 0 <= i < |ips| :: ips[i] == []
  {
    if ips == [] then "" else ips[0] + Concat(ips[1..])
  }

  /**
   * For the template's answer: no address is reported exactly when every network's
   * address is empty, and otherwise the report is all the addresses run together,
   * not the first alone (as long as the line fits the buffer).
   */
  lemma {:induction false} TemplateReport(ips: seq<string>)
    requires '\n' !in Concat(ips)
    requires |Concat(ips)| < BufferSize - 1
    ensures ClassifyIp(Some(TemplateOutput(ips)))
      == if forall i | 0 <= i < |ips| :: ips[i] == [] then NoIp else Address(Concat(ips) + "\n")
  {
    LineChunkOfLine(Concat(ips), BufferSize - 1);
  }

  /** A line shorter than the room left is read whole, newline included. */
  lemma {:induction false} LineChunkOfLine(line: string, room: nat)
    requires '\n' !in line
    requires |line| < room
    ensures LineChunk(line + "\n", room) == line + "\n"
  {
    if line != [] {
      assert (line + "\n")[1..] == line[1..] + "\n";
      assert '\n' !in line[1..] by {
        forall k | 0 <= k < |line[1..]| ensures line[1..][k] != '\n' {
          assert line[1..][k] == line[k + 1];
        }
      }
      LineChunkOfLine(line[1..], room - 1);
    }
  }

  /** Two networks with addresses a and b: the report is "ab\n". */
  lemma TwoNetworksRunTogether(a: string, b: string)
    requires a != [] && '\n' !in a && '\n' !in b
    requires |a| + |b| < BufferSize - 1
    ensures ClassifyIp(Some(TemplateOutput([a, b]))) == Address(a + b + "\n")
  {
    assert [a, b][1..] == [b];
    assert [b][1..] == [];
    assert Concat([b]) == b + Concat([]) == b;
    assert Concat([a, b]) == a + b;
    assert '\n' !in a + b by {
      forall k | 0 <= k < |a + b| ensures (a + b)[k] != '\n' {
        if k >= |a| { assert (a + b)[k] == b[k - |a|]; }
      }
    }
    TemplateReport([a, b]);
  }

  /** A line that is only white space other than a lone newline is still reported as an address. */
  lemma BlankLineIsReported(blank: string)
    requires blank != [] && AllSpace(blank) && '\n' !in blank
    requires |blank| < BufferSize - 1
    ensures ClassifyIp(Some(blank + "\n")) == Address(blank + "\n")
  {
    LineChunkOfLine(blank, BufferSize - 1);
  }

  /** Only the first line of the answer is read, and at most 127 characters of it. */
  lemma FirstLineOnly(text: string)
    requires ClassifyIp(Some(text)).Address?
    ensures var ip := ClassifyIp(Some(text)).ip;
      && ip <= text
      && |ip| <= BufferSize - 1
      && ('\n' in ip ==> '\n' !in ip[..|ip| - 1])
      && ('\n' !in ip ==> ip == text || |ip| == BufferSize - 1)
  {
  }
}
