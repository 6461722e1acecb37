/**
 * The container listing: `getContainerList` reads the output of
 * `docker ps -a --format '{{.ID}} {{.Names}}'` line by line and keeps, for every
 * line that has at least two white-space separated tokens, the first two as
 * (id, name), in the order the lines were read.
 *
 * The pipe is an input: `None` when it could not be opened, otherwise the strings
 * that successive `fgets` calls returned.
 */
module Listing {
  import opened Options
  import opened Text

  /** One `pair<string, string>` of the list: `.first` is the id, `.second` the name. */
  datatype Container = Container(id: string, name: string)

  /** The size of the buffer each line is read into; `fgets` keeps one byte for the terminator. */
  const ListingBufferSize := 256

  /** Both fields are what a successful `>>` yields: non-empty and free of white space. */
  predicate WellFormed(c: Container) {
    IsToken(c.id) && IsToken(c.name)
  }

  /** `ss >> id >> name`, then the emptiness test on both: the entry a line contributes, if any. */
  function ParseLine(line: string): (r: Option<Container>)
    ensures r.Some? ==> WellFormed(r.value)
  {
    var (id, afterId) := ReadToken(line);
    ReadTokenSplits(line);
    ReadTokenSplits(afterId);
    var (name, _) := ReadToken(afterId);
    if id != [] && name != [] then Some(Container(id, name)) else None
  }

  /** The entries the lines contribute, in the order the lines come. */
  function ParseListing(lines: seq<string>): (cs: seq<Container>)
    ensures |cs| <= |lines|
    ensures forall k | 0 <= k < |cs| :: WellFormed(cs[k])
  {
    if lines == [] then []
    else
      var last := lines[|lines| - 1];
      ParseListing(lines[..|lines| - 1]) + (if ParseLine(last).Some? then [ParseLine(last).value] else [])
  }

  /** The list the pipe yields: nothing when it could not be opened. */
  function ContainerList(pipe: Option<seq<string>>): (cs: seq<Container>)
    ensures pipe.None? ==> cs == []
    ensures pipe.Some? ==> |cs| <= |pipe.value| && forall k | 0 <= k < |cs| :: WellFormed(cs[k])
  {
    if pipe.None? then [] else ParseListing(pipe.value)
  }

  /** `getContainerList`, with the pipe's lines as input. */
  method GetContainerList(pipe: Option<seq<string>>) returns (containers: seq<Container>)
    ensures pipe.None? ==> containers == []
    ensures pipe.Some? ==> containers == ParseListing(pipe.value)
  {
    containers := [];
    if pipe.None? {
      return;
    }
    var lines := pipe.value;
    var i := 0;
    while i < |lines|
      invariant 0 <= i <= |lines|
      invariant containers == ParseListing(lines[..i])
    {
      var result := lines[i];
      var (id, afterId) := ReadToken(result);
      var (name, _) := ReadToken(afterId);
      if id != [] && name != [] {
        containers := containers + [Container(id, name)];
      }
      assert lines[..i + 1][..i] == lines[..i];
      i := i + 1;
    }
    assert lines[..|lines|] == lines;
  }

  /** A line contributes an entry exactly when it has two words, and the entry is those two words. */
  lemma ParseLineWords(line: string)
    ensures ParseLine(line) == if |Words(line)| >= 2 then Some(Container(Words(line)[0], Words(line)[1])) else None
  {
    var (id, afterId) := ReadToken(line);
    var (name, rest) := ReadToken(afterId);
    if id != [] {
      assert Words(line) == [id] + Words(afterId);
      if name != [] {
        assert Words(afterId) == [name] + Words(rest);
      } else {
        assert Words(afterId) == [];
      }
    } else {
      assert Words(line) == [];
    }
  }

  /** The row docker prints for a container under the format `{{.ID}} {{.Names}}`. */
  function FormatRow(c: Container): string
  {
    c.id + " " + c.name + "\n"
  }

  /** Whether one `fgets` returns the whole row: it holds fewer characters than the buffer. */
  predicate FitsBuffer(c: Container) {
    |FormatRow(c)| < ListingBufferSize
  }

  /** Parsing a printed row that one `fgets` returns whole gives the container back. */
  lemma ParseFormatRow(c: Container)
    requires WellFormed(c) && FitsBuffer(c)
    ensures ParseLine(FormatRow(c)) == Some(c)
  {
    var afterId := [' '] + (c.name + "\n");
    assert FormatRow(c) == c.id + afterId;
    ReadTokenOfToken(c.id, afterId);
    ReadTokenAfterSpace(' ', c.name + "\n");
    ReadTokenOfToken(c.name, "\n");
  }

  /** The listing docker prints for a sequence of containers, one row each. */
  function FormatListing(cs: seq<Container>): (lines: seq<string>)
    ensures |lines| == |cs|
    ensures forall k | 0 <= k < |cs| :: lines[k] == FormatRow(cs[k])
  {
    if cs == [] then [] else FormatListing(cs[..|cs| - 1]) + [FormatRow(cs[|cs| - 1])]
  }

  /**
   * Parsing what docker printed for a list of containers gives that list, in that
   * order, as long as every row fits the buffer.
   */
  lemma {:induction false} ParseFormatListing(cs: seq<Container>)
    requires forall k | 0 <= k < |cs| :: WellFormed(cs[k]) && FitsBuffer(cs[k])
    ensures ParseListing(FormatListing(cs)) == cs
  {
    if cs != [] {
      var n := |cs| - 1;
      var init, row := FormatListing(cs[..n]), FormatRow(cs[n]);
      assert FormatListing(cs) == init + [row];
      assert (init + [row])[..n] == init;
      ParseFormatListing(cs[..n]);
      ParseFormatRow(cs[n]);
      assert ParseListing(init + [row]) == ParseListing(init) + [cs[n]];
      SplitLast(cs);
    }
  }

  /**
   * A row of 257 to 510 bytes reaches the parser in two pieces. When its first 255
   * bytes end inside the name, the rest of the name is a line of one word, which is
   * skipped, and the listing holds the container with its name cut off.
   */
  lemma LongRowIsCut(id: string, head: string, tail: string)
    requires IsToken(id) && IsToken(head) && IsToken(tail)
    requires |id + " " + head| == ListingBufferSize - 1
    requires |tail| + 1 < ListingBufferSize
    ensures FormatRow(Container(id, head + tail)) == (id + " " + head) + (tail + "\n")
    ensures |FormatRow(Container(id, head + tail))| >= ListingBufferSize
    ensures ParseListing([id + " " + head, tail + "\n"]) == [Container(id, head)]
  {
    var first, second := id + " " + head, tail + "\n";
    FirstPieceParses(id, head);
    OneWordLineIsSkipped(tail);
    assert [first, second][..1] == [first];
    assert [first][..0] == [];
    assert ParseListing([first]) == [Container(id, head)];
  }

  /**
   * A row of exactly 256 bytes arrives as its first 255 bytes and then a lone
   * newline: the name is not cut, and the newline line is skipped.
   */
  lemma FullBufferRowKeepsName(id: string, name: string)
    requires IsToken(id) && IsToken(name)
    requires |id + " " + name| == ListingBufferSize - 1
    ensures |FormatRow(Container(id, name))| == ListingBufferSize
    ensures FormatRow(Container(id, name)) == (id + " " + name) + "\n"
    ensures ParseListing([id + " " + name, "\n"]) == [Container(id, name)]
  {
    var first := id + " " + name;
    FirstPieceParses(id, name);
    ReadTokenAfterSpace('\n', "");
    assert ParseLine("\n") == None;
    assert [first, "\n"][..1] == [first];
    assert [first][..0] == [];
    assert ParseListing([first]) == [Container(id, name)];
  }

  /** The first piece, cut inside the name, still yields an entry: the id and the start of the name. */
  lemma FirstPieceParses(id: string, head: string)
    requires IsToken(id) && IsToken(head)
    ensures ParseLine(id + " " + head) == Some(Container(id, head))
  {
    var afterId := [' '] + head;
    assert id + " " + head == id + afterId;
    ReadTokenOfToken(id, afterId);
    ReadTokenAfterSpace(' ', head);
    assert head == head + "";
    ReadTokenOfToken(head, "");
  }

  /** A line holding one word yields no entry. */
  lemma OneWordLineIsSkipped(word: string)
    requires IsToken(word)
    ensures ParseLine(word + "\n") == None
  {
    ReadTokenOfToken(word, "\n");
    ReadTokenAfterSpace('\n', "");
  }

  /** Parsing is line by line: the entries of two stretches of output are those of each, in order. */
  lemma {:induction false} ParseListingAppend(a: seq<string>, b: seq<string>)
    ensures ParseListing(a + b) == ParseListing(a) + ParseListing(b)
  {
    if b == [] {
      assert a + b == a;
    } else {
      var n := |b| - 1;
      assert (a + b)[..|a + b| - 1] == a + b[..n];
      assert (a + b)[|a + b| - 1] == b[n];
      ParseListingAppend(a, b[..n]);
    }
  }

  /** A container is listed exactly when some line contributes it. */
  lemma {:induction false} ParseListingMembers(lines: seq<string>, c: Container)
    ensures c in ParseListing(lines) <==> exists j | 0 <= j < |lines| :: ParseLine(lines[j]) == Some(c)
  {
    if lines != [] {
      var n := |lines| - 1;
      ParseListingMembers(lines[..n], c);
      if c in ParseListing(lines) && c !in ParseListing(lines[..n]) {
        assert ParseLine(lines[n]) == Some(c);
      }
      if j :| 0 <= j < |lines| && ParseLine(lines[j]) == Some(c) {
        if j < n {
          assert lines[..n][j] == lines[j];
        }
      }
    }
  }

  /** When every line has two words, entry k comes from line k. */
  lemma {:induction false} ParseListingAllRows(lines: seq<string>)
    requires forall j | 0 <= j < |lines| :: ParseLine(lines[j]).Some?
    ensures |ParseListing(lines)| == |lines|
    ensures forall k | 0 <= k < |lines| :: ParseListing(lines)[k] == ParseLine(lines[k]).value
  {
    if lines != [] {
      var n := |lines| - 1;
      ParseListingAllRows(lines[..n]);
    }
  }
}
