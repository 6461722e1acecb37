/**
 * `selectContainer`: list the containers, show them as a numbered menu, read one
 * integer and resolve it to the full id of the container at that position.
 *
 * The operator's integer input is a stream: `ReadInt` takes the next integer. At the
 * end of the stream the program's `choice` is left uninitialised; the model takes 0
 * there, which the range check rejects. What the handler prints is the sequence of
 * strings it writes to `cout`, one per output statement.
 */
module Selection {
  import opened Options
  import opened Text
  import opened Listing

  /** How a selection ends: no containers to choose from, a rejected choice, or a full id. */
  datatype Selection = NoContainers | InvalidChoice | Chosen(id: string)

  const NoContainersMessage := "No containers available.\n"
  const MenuHeader := "\nAvailable Containers:\n"
  const InvalidMessage := "Invalid selection.\n"

  /** The next integer of the input, and what remains after it; 0 once the input has run out. */
  function ReadInt(input: seq<int>): (r: (int, seq<int>))
    ensures input != [] ==> r == (input[0], input[1..])
    ensures input == [] ==> r == (0, [])
  {
    if input == [] then (0, []) else (input[0], input[1..])
  }

  /** The range check and the lookup: a choice is good when it lies in 1..|containers|. */
  function Pick(containers: seq<Container>, choice: int): (s: Selection)
    ensures s.Chosen? <==> 1 <= choice <= |containers|
    ensures s.Chosen? ==> s.id == containers[choice - 1].id
    ensures !s.Chosen? ==> s == InvalidChoice
  {
    if choice < 1 || choice > |containers| then InvalidChoice else Chosen(containers[choice - 1].id)
  }

  /** The outcome of a selection over a list: an empty list ends it before anything is read. */
  function Select(containers: seq<Container>, input: seq<int>): (s: Selection)
    ensures s.NoContainers? <==> containers == []
    ensures s.Chosen? <==> containers != [] && 1 <= ReadInt(input).0 <= |containers|
    ensures s.Chosen? ==> exists k | 0 <= k < |containers| :: containers[k].id == s.id
  {
    if containers == [] then NoContainers else Pick(containers, ReadInt(input).0)
  }

  /** The input a selection leaves unread: all of it for an empty list, else all but one integer. */
  function Unread(containers: seq<Container>, input: seq<int>): (rest: seq<int>)
    ensures containers == [] ==> rest == input
    ensures containers != [] && input != [] ==> rest == input[1..]
    ensures containers != [] && input == [] ==> rest == []
  {
    if containers == [] then input else ReadInt(input).1
  }

  /** The string `selectContainer` returns: the id, or empty when there is none. */
  function SelectedId(s: Selection): string
  {
    if s.Chosen? then s.id else ""
  }

  /** The menu line for ordinal `k`: the ordinal, the name and the first twelve characters of the id. */
  function MenuLine(k: nat, c: Container): (line: string)
    ensures NatToString(k) + ". " + c.name <= line
    ensures var shown := Prefix(c.id, 12);
      |line| >= |shown| + 4 && line[|line| - |shown| - 4..] == " (" + shown + ")\n"
  {
    var shown := Prefix(c.id, 12);
    var line := NatToString(k) + ". " + c.name + " (" + shown + ")\n";
    assert line == (NatToString(k) + ". " + c.name) + (" (" + shown + ")\n");
    line
  }

  /** The prompt, followed by the accepted range. */
  function PromptLine(prompt: string, count: nat): (p: string)
    ensures prompt <= p
    ensures p[|prompt|..] == " (1-" + NatToString(count) + "): "
  {
    var p := prompt + " (1-" + NatToString(count) + "): ";
    assert p == prompt + (" (1-" + NatToString(count) + "): ");
    p
  }

  /** The menu: one line per container, numbered from 1 in list order. */
  function Menu(containers: seq<Container>): seq<string>
  {
    seq(|containers|, k requires 0 <= k < |containers| => MenuLine(k + 1, containers[k]))
  }

  /** What `selectContainer` writes, one string per output statement, for the list, prompt and input. */
  function SelectionOutput(containers: seq<Container>, prompt: string, input: seq<int>): (out: seq<string>)
    ensures containers == [] ==> out == [NoContainersMessage]
    ensures var s := Select(containers, input);
      containers != [] ==>
        && |out| == |containers| + (if s.Chosen? then 2 else 3)
        && out[0] == MenuHeader
        && (forall k | 0 <= k < |containers| :: out[k + 1] == MenuLine(k + 1, containers[k]))
        && out[|containers| + 1] == PromptLine(prompt, |containers|)
        && (!s.Chosen? ==> out[|containers| + 2] == InvalidMessage)
  {
    if containers == [] then [NoContainersMessage]
    else
      [MenuHeader] + Menu(containers) + [PromptLine(prompt, |containers|)]
        + (if Select(containers, input).Chosen? then [] else [InvalidMessage])
  }

  /** The menu loop: one line per container, numbered from 1 in list order. */
  method RenderMenu(containers: seq<Container>) returns (lines: seq<string>)
    ensures |lines| == |containers|
    ensures forall k | 0 <= k < |containers| :: lines[k] == MenuLine(k + 1, containers[k])
  {
    lines := [];
    var i := 1;
    for j := 0 to |containers|
      invariant i == j + 1
      invariant |lines| == j
      invariant forall k | 0 <= k < j :: lines[k] == MenuLine(k + 1, containers[k])
    {
      var c := containers[j];
      lines := lines + [NatToString(i) + ". " + c.name + " (" + Prefix(c.id, 12) + ")\n"];
      i := i + 1;
    }
  }

  /**
   * `selectContainer(prompt)` over the pipe of the listing command: returns the id
   * (empty when there is none), the lines written, and the input left unread.
   */
  method SelectContainer(pipe: Option<seq<string>>, prompt: string, input: seq<int>)
    returns (id: string, out: seq<string>, rest: seq<int>)
    ensures var cs := ContainerList(pipe);
      && id == SelectedId(Select(cs, input))
      && rest == Unread(cs, input)
      && out == SelectionOutput(cs, prompt, input)
  {
    var containers := GetContainerList(pipe);
    if containers == [] {
      return "", [NoContainersMessage], input;
    }
    var menu := RenderMenu(containers);
    assert menu == Menu(containers);
    out := [MenuHeader] + menu + [PromptLine(prompt, |containers|)];
    var choice;
    choice, rest := ReadInt(input).0, ReadInt(input).1;
    if choice < 1 || choice > |containers| {
      out := out + [InvalidMessage];
      return "", out, rest;
    }
    id := containers[choice - 1].id;
  }

  /** Over a parsed listing the returned string is empty exactly when nothing was chosen. */
  lemma SelectedIdEmptyIffNotChosen(lines: seq<string>, input: seq<int>)
    ensures var s := Select(ParseListing(lines), input);
      SelectedId(s) != "" <==> s.Chosen?
  {
    var cs := ParseListing(lines);
    var s := Select(cs, input);
    if s.Chosen? {
      var choice := ReadInt(input).0;
      assert WellFormed(cs[choice - 1]);
    }
  }

  /** A chosen id is a whole token that some listing line carries as its first word, followed by a name. */
  lemma ChosenIdIsListed(lines: seq<string>, input: seq<int>)
    requires Select(ParseListing(lines), input).Chosen?
    ensures var id := Select(ParseListing(lines), input).id;
      && IsToken(id)
      && exists j | 0 <= j < |lines| :: |Words(lines[j])| >= 2 && Words(lines[j])[0] == id
  {
    var cs := ParseListing(lines);
    var c := cs[ReadInt(input).0 - 1];
    assert c in cs;
    ParseListingMembers(lines, c);
    var j :| 0 <= j < |lines| && ParseLine(lines[j]) == Some(c);
    ParseLineWords(lines[j]);
  }

  /** Over docker's rows for `cs`, choosing ordinal k yields the full id of the k-th container. */
  lemma ChooseFromFormattedListing(cs: seq<Container>, k: int, more: seq<int>)
    requires forall i | 0 <= i < |cs| :: WellFormed(cs[i]) && FitsBuffer(cs[i])
    requires 1 <= k <= |cs|
    ensures Select(ParseListing(FormatListing(cs)), [k] + more) == Chosen(cs[k - 1].id)
    ensures Unread(ParseListing(FormatListing(cs)), [k] + more) == more
  {
    ParseFormatListing(cs);
    ChooseFrom(cs, k, more);
  }

  /** Over any list, the integer k in 1..size picks entry k and is the only one read. */
  lemma ChooseFrom(cs: seq<Container>, k: int, more: seq<int>)
    requires 1 <= k <= |cs|
    ensures Select(cs, [k] + more) == Chosen(cs[k - 1].id)
    ensures Unread(cs, [k] + more) == more
  {
    assert ReadInt([k] + more) == (k, more);
  }

  /** With nothing listed, no choice is read and the result is empty. */
  lemma EmptyListReadsNothing(pipe: Option<seq<string>>, input: seq<int>)
    requires pipe.None? || (forall j | 0 <= j < |pipe.value| :: |Words(pipe.value[j])| < 2)
    ensures Select(ContainerList(pipe), input) == NoContainers
    ensures Unread(ContainerList(pipe), input) == input
  {
    if pipe.Some? {
      var lines := pipe.value;
      forall j | 0 <= j < |lines| ensures ParseLine(lines[j]) == None {
        ParseLineWords(lines[j]);
      }
      NoRowsNoEntries(lines);
    }
  }

  lemma {:induction false} NoRowsNoEntries(lines: seq<string>)
    requires forall j | 0 <= j < |lines| :: ParseLine(lines[j]) == None
    ensures ParseListing(lines) == []
  {
    if lines != [] {
      NoRowsNoEntries(lines[..|lines| - 1]);
    }
  }

  /**
   * The menu shows at ordinal k the name and only a twelve-character prefix of the id,
   * while choosing k returns the whole id, which begins with that prefix.
   */
  lemma MenuShowsPrefixOfChosenId(cs: seq<Container>, k: int)
    requires 1 <= k <= |cs|
    ensures var id := Pick(cs, k).id;
      && MenuLine(k, cs[k - 1]) == NatToString(k) + ". " + cs[k - 1].name + " (" + Prefix(id, 12) + ")\n"
      && Prefix(id, 12) <= id
      && |id| == |cs[k - 1].id|
      && (|id| > 12 ==> Prefix(id, 12) != id)
  {
  }

  /**
   * The two-row example: docker prints the rows "abc123456789 web" and
   * "def987654321 db", they parse back to their containers, and the choice 2 picks
   * the second, full id.
   */
  lemma TwoRowExample(cs: seq<Container>)
    requires cs == [Container("abc123456789", "web"), Container("def987654321", "db")]
    ensures FormatListing(cs) == ["abc123456789 web\n", "def987654321 db\n"]
    ensures ParseListing(["abc123456789 web\n", "def987654321 db\n"]) == cs
    ensures Select(cs, [2]) == Chosen("def987654321")
  {
    TwoRowPrinted(cs);
    assert WellFormed(cs[0]) && WellFormed(cs[1]);
    assert FitsBuffer(cs[0]) && FitsBuffer(cs[1]);
    ParseFormatListing(cs);
  }

  /** The menu of the two-row example reads "1. web (abc123456789)" and "2. db (def987654321)". */
  lemma TwoRowMenu(cs: seq<Container>)
    requires cs == [Container("abc123456789", "web"), Container("def987654321", "db")]
    ensures Menu(cs) == ["1. web (abc123456789)\n", "2. db (def987654321)\n"]
  {
    FirstMenuLine(cs[0]);
    SecondMenuLine(cs[1]);
  }

  lemma FirstMenuLine(c: Container)
    requires c == Container("abc123456789", "web")
    ensures MenuLine(1, c) == "1. web (abc123456789)\n"
  {
    assert Prefix(c.id, 12) == c.id;
    assert NatToString(1) == "1";
    assert "1" + ". " + "web" == "1. web";
    assert " (" + "abc123456789" + ")\n" == " (abc123456789)\n";
  }

  lemma SecondMenuLine(c: Container)
    requires c == Container("def987654321", "db")
    ensures MenuLine(2, c) == "2. db (def987654321)\n"
  {
    assert Prefix(c.id, 12) == c.id;
    assert NatToString(2) == "2";
    assert "2" + ". " + "db" == "2. db";
    assert " (" + "def987654321" + ")\n" == " (def987654321)\n";
  }

  /** What docker prints for the two containers of the example. */
  lemma TwoRowPrinted(cs: seq<Container>)
    requires cs == [Container("abc123456789", "web"), Container("def987654321", "db")]
    ensures FormatListing(cs) == ["abc123456789 web\n", "def987654321 db\n"]
  {
    var printed := FormatListing(cs);
    assert printed[0] == "abc123456789 web\n";
    assert printed[1] == "def987654321 db\n";
  }
}
