/**
 * The command lines the action handlers hand to `system`. Every command is plain
 * concatenation. For pieces free of white space and of shell metacharacters, joined
 * by single spaces, `Words` gives the argument vector a shell's word split makes of
 * the command, and each builder is related to the argument vector its template intends.
 *
 * The small lemmas that only regroup string literals or split a literal into its
 * words (`SpacedPrefix3`, `RunCommandRegrouped`, `EnvironmentFlagSplit`, ...) hold
 * without a proof; they are separate so that no proof has to unfold a long literal
 * and the larger lemmas stay within the verifier's resource limit.
 */
module Commands {
  import opened Options
  import opened Text
  import opened Listing
  import opened Selection

  /** `pullImage`: the command for the image name read. */
  function PullCommand(image: string): (command: string)
    ensures "docker pull " <= command && command[|"docker pull "|..] == image
  {
    "docker pull " + image
  }

  /** `deleteImage`: the command for the image name or id read. */
  function DeleteImageCommand(image: string): (command: string)
    ensures "docker rmi " <= command && command[|"docker rmi "|..] == image
  {
    "docker rmi " + image
  }

  /** A one-word image name reaches docker as the last argument of pull. */
  lemma PullCommandWords(image: string)
    requires IsToken(image)
    ensures Words(PullCommand(image)) == ["docker", "pull", image]
  {
    assert PullCommand(image) == "docker" + (" " + ("pull" + (" " + image)));
    WordsOfThree("docker", "pull", image);
  }

  /** A one-word image name or id reaches docker as the last argument of rmi. */
  lemma DeleteImageCommandWords(image: string)
    requires IsToken(image)
    ensures Words(DeleteImageCommand(image)) == ["docker", "rmi", image]
  {
    assert DeleteImageCommand(image) == "docker" + (" " + ("rmi" + (" " + image)));
    WordsOfThree("docker", "rmi", image);
  }

  /** A literal prefix of three words, each followed by a space, in front of `x`. */
  lemma SpacedPrefix3(a: string, b: string, c: string, x: string)
    ensures a + " " + b + " " + c + " " + x == a + (" " + (b + (" " + (c + (" " + x)))))
  {
  }

  /** A literal of the form " b c d " in front of `x`. */
  lemma SpacedPrefix4(lit: string, b: string, c: string, d: string, x: string)
    requires lit == " " + b + " " + c + " " + d + " "
    ensures lit + x == " " + (b + (" " + (c + (" " + (d + (" " + x))))))
  {
  }

  /** The handlers that act on a container chosen from the menu. */
  datatype ContainerAction = StartInteractive | StartDetached | Stop | Remove | ExecShell

  /** The prompt each handler passes to `selectContainer`. */
  function ActionPrompt(a: ContainerAction): (prompt: string)
    ensures "Select " <= prompt
  {
    match a
    case StartInteractive => "Select container to start interactively"
    case StartDetached => "Select container to start detached"
    case Stop => "Select container to stop"
    case Remove => "Select container to remove"
    case ExecShell => "Select running container for shell access"
  }

  /** The command each handler runs on the selected id. */
  function ActionCommand(a: ContainerAction, id: string): (command: string)
    ensures "docker " <= command
    ensures var tail := id + (if a == ExecShell then " /bin/sh" else "");
      |command| >= |tail| && command[|command| - |tail|..] == tail
  {
    match a
    case StartInteractive => "docker start -ai " + id
    case StartDetached => "docker start " + id
    case Stop => "docker stop " + id
    case Remove => "docker rm " + id
    case ExecShell => "docker exec -it " + id + " /bin/sh"
  }

  /** The argument vector each handler intends: the docker subcommand and its flags, then the id. */
  function ActionArgv(a: ContainerAction, id: string): seq<string>
  {
    match a
    case StartInteractive => ["docker", "start", "-ai", id]
    case StartDetached => ["docker", "start", id]
    case Stop => ["docker", "stop", id]
    case Remove => ["docker", "rm", id]
    case ExecShell => ["docker", "exec", "-it", id, "/bin/sh"]
  }

  /** Each container command splits into its intended argument vector when the id is one word. */
  lemma ActionCommandWords(a: ContainerAction, id: string)
    requires IsToken(id)
    ensures Words(ActionCommand(a, id)) == ActionArgv(a, id)
  {
    match a
    case StartInteractive => StartInteractiveWords(id);
    case StartDetached =>
      assert ActionCommand(a, id) == "docker " + "start" + " " + id;
      SubcommandWords("start", id);
    case Stop =>
      assert ActionCommand(a, id) == "docker " + "stop" + " " + id;
      SubcommandWords("stop", id);
    case Remove =>
      assert ActionCommand(a, id) == "docker " + "rm" + " " + id;
      SubcommandWords("rm", id);
    case ExecShell => ExecShellWords(id);
  }

  lemma StartInteractiveWords(id: string)
    requires IsToken(id)
    ensures Words("docker start -ai " + id) == ["docker", "start", "-ai", id]
  {
    assert "docker start -ai " + id == "docker" + (" " + ("start" + (" " + ("-ai" + (" " + id)))));
    WordsOfFour("docker", "start", "-ai", id);
  }

  lemma SubcommandWords(sub: string, id: string)
    requires sub == "start" || sub == "stop" || sub == "rm"
    requires IsToken(id)
    ensures Words("docker " + sub + " " + id) == ["docker", sub, id]
  {
    assert "docker " + sub + " " + id == "docker" + (" " + (sub + (" " + id)));
    WordsOfThree("docker", sub, id);
  }

  lemma ExecShellWords(id: string)
    requires IsToken(id)
    ensures Words("docker exec -it " + id + " /bin/sh") == ["docker", "exec", "-it", id, "/bin/sh"]
  {
    assert "docker exec -it " + id + " /bin/sh" == "docker" + (" " + ("exec" + (" " + ("-it" + (" " + (id + (" " + "/bin/sh")))))));
    WordsOfFive("docker", "exec", "-it", id, "/bin/sh");
  }

  /**
   * A container handler (`startInteractive`, `startDetached`, `stopContainer`,
   * `removeContainer`, `execShell`): select, then run the command only if the id is
   * not empty. Returns the command run, if any, the lines written and the unread input.
   */
  method ContainerHandler(a: ContainerAction, pipe: Option<seq<string>>, input: seq<int>)
    returns (command: Option<string>, out: seq<string>, rest: seq<int>)
    ensures var s := Select(ContainerList(pipe), input);
      && (command.Some? <==> s.Chosen?)
      && (s.Chosen? ==> command == Some(ActionCommand(a, s.id)))
    ensures rest == Unread(ContainerList(pipe), input)
    ensures out == SelectionOutput(ContainerList(pipe), ActionPrompt(a), input)
  {
    var id;
    id, out, rest := SelectContainer(pipe, ActionPrompt(a), input);
    if pipe.Some? {
      SelectedIdEmptyIffNotChosen(pipe.value, input);
    }
    if id != "" {
      command := Some(ActionCommand(a, id));
    } else {
      command := None;
    }
  }

  /**
   * End to end: whatever the listing and the input, a handler runs a command exactly
   * when the choice is good, and that command's last id argument is the whole id of
   * the container at the chosen ordinal.
   */
  lemma HandlerTargetsChosenContainer(a: ContainerAction, lines: seq<string>, choice: int, more: seq<int>)
    requires 1 <= choice <= |ParseListing(lines)|
    ensures var c := ParseListing(lines)[choice - 1];
      && Select(ParseListing(lines), [choice] + more) == Chosen(c.id)
      && Words(ActionCommand(a, c.id)) == ActionArgv(a, c.id)
      && ActionArgv(a, c.id)[if a == ExecShell then 3 else |ActionArgv(a, c.id)| - 1] == c.id
  {
    var c := ParseListing(lines)[choice - 1];
    ActionCommandWords(a, c.id);
  }

  /** The `-p` arguments: each mapping preceded by "-p " and followed by a space, in entry order. */
  function PortArgs(mappings: seq<string>): (args: string)
    ensures args == [] <==> mappings == []
    ensures mappings != [] ==> "-p " <= args && args[|args| - 1] == ' '
  {
    if mappings == [] then "" else "-p " + mappings[0] + " " + PortArgs(mappings[1..])
  }

  /** The argument vector the `-p` arguments are meant to give: "-p" and the mapping, per mapping. */
  function PortWords(mappings: seq<string>): (ws: seq<string>)
    ensures |ws| == 2 * |mappings|
    ensures forall i | 0 <= i < |mappings| :: ws[2 * i] == "-p" && ws[2 * i + 1] == mappings[i]
  {
    if mappings == [] then []
    else
      var tail := PortWords(mappings[1..]);
      var ws := ["-p", mappings[0]] + tail;
      assert forall i | 0 <= i < |mappings| :: ws[2 * i] == "-p" && ws[2 * i + 1] == mappings[i] by {
        forall i | 0 <= i < |mappings| ensures ws[2 * i] == "-p" && ws[2 * i + 1] == mappings[i] {
          if i > 0 {
            assert ws[2 * i] == tail[2 * (i - 1)];
            assert ws[2 * i + 1] == tail[2 * (i - 1) + 1];
            assert mappings[1..][i - 1] == mappings[i];
          }
        }
      }
      ws
  }

  /** Adding one more mapping adds its `-p` argument at the end. */
  lemma {:induction false} PortArgsSnoc(mappings: seq<string>, m: string)
    ensures PortArgs(mappings + [m]) == PortArgs(mappings) + "-p " + m + " "
  {
    if mappings == [] {
      assert mappings + [m] == [m];
    } else {
      assert (mappings + [m])[1..] == mappings[1..] + [m];
      PortArgsSnoc(mappings[1..], m);
    }
  }

  /** With one-word mappings, the words of the `-p` arguments and what follows are "-p"/mapping pairs, then the rest. */
  lemma {:induction false} PortArgsWords(mappings: seq<string>, tail: string)
    requires AllTokens(mappings)
    ensures Words(PortArgs(mappings) + tail) == PortWords(mappings) + Words(tail)
  {
    if mappings == [] {
      assert PortArgs(mappings) + tail == tail;
    } else {
      var rest := mappings[1..];
      assert AllTokens(rest) by {
        forall k | 0 <= k < |rest| ensures IsToken(rest[k]) {
          assert rest[k] == mappings[k + 1];
        }
      }
      PortArgsWordsStep(mappings, tail);
      PortArgsWords(rest, tail);
    }
  }

  /** The first mapping's `-p` argument gives the words "-p" and the mapping. */
  lemma PortArgsWordsStep(mappings: seq<string>, tail: string)
    requires mappings != [] && IsToken(mappings[0])
    ensures Words(PortArgs(mappings) + tail) == ["-p", mappings[0]] + Words(PortArgs(mappings[1..]) + tail)
  {
    PortArgsRegrouped(mappings, tail);
    assert IsToken("-p");
    WordsOfTwoThen("-p", mappings[0], PortArgs(mappings[1..]) + tail);
  }

  /** Two one-word arguments, each followed by a space, in front of `tail`. */
  lemma WordsOfTwoThen(a: string, b: string, tail: string)
    requires IsToken(a) && IsToken(b)
    ensures Words(a + (" " + (b + (" " + tail)))) == [a, b] + Words(tail)
  {
    WordsOfTokenSpaced(a, b + (" " + tail));
    WordsOfTokenSpaced(b, tail);
  }

  /** The first `-p` argument, split where its two words begin. */
  lemma PortArgsRegrouped(mappings: seq<string>, tail: string)
    requires mappings != []
    ensures PortArgs(mappings) + tail == "-p" + (" " + (mappings[0] + (" " + (PortArgs(mappings[1..]) + tail))))
  {
    assert "-p " == "-p" + " ";
  }

  /** The mappings read: `portCount` of them (none when it is zero or less), empty once the input runs out. */
  function Mappings(portCount: int, entered: seq<string>): (ms: seq<string>)
    ensures |ms| == if portCount <= 0 then 0 else portCount
    ensures forall i | 0 <= i < |ms| :: ms[i] == if i < |entered| then entered[i] else ""
  {
    seq(if portCount <= 0 then 0 else portCount, i => if 0 <= i < |entered| then entered[i] else "")
  }

  /** The interactive run command for an image and its mappings. */
  function RunCommand(image: string, mappings: seq<string>): (command: string)
    ensures "docker run -it " <= command
    ensures |command| == |"docker run -it "| + |PortArgs(mappings)| + |image| + |" /bin/sh"|
    ensures command[|command| - |" /bin/sh"|..] == " /bin/sh"
  {
    "docker run -it " + PortArgs(mappings) + image + " /bin/sh"
  }

  /** The argument vector the run command is meant to give. */
  function RunArgv(image: string, mappings: seq<string>): seq<string>
  {
    ["docker", "run", "-it"] + PortWords(mappings) + [image, "/bin/sh"]
  }

  /**
   * `runContainerInteractive`: read `portCount` mappings into "-p " strings, join them
   * each followed by a space, and build the run command.
   */
  method RunContainerInteractive(image: string, portCount: int, entered: seq<string>) returns (command: string)
    ensures command == RunCommand(image, Mappings(portCount, entered))
  {
    ghost var ms := Mappings(portCount, entered);
    var ports: seq<string> := [];
    var i := 0;
    while i < portCount
      invariant 0 <= i <= |ms|
      invariant |ports| == i
      invariant forall j | 0 <= j < i :: ports[j] == "-p " + ms[j]
    {
      var port := if i < |entered| then entered[i] else "";
      ports := ports + ["-p " + port];
      i := i + 1;
    }
    var portArgs := "";
    for k := 0 to |ports|
      invariant portArgs == PortArgs(ms[..k])
    {
      PortArgsStep(ms, k, ports[k]);
      portArgs := portArgs + ports[k] + " ";
    }
    assert ms[..|ports|] == ms;
    command := "docker run -it " + portArgs + image + " /bin/sh";
  }

  /** One pass of the joining loop: appending "-p m " extends the arguments of the first k mappings by mapping k. */
  lemma PortArgsStep(ms: seq<string>, k: nat, port: string)
    requires k < |ms| && port == "-p " + ms[k]
    ensures PortArgs(ms[..k]) + port + " " == PortArgs(ms[..k + 1])
  {
    PortArgsSnoc(ms[..k], ms[k]);
    assert ms[..k + 1] == ms[..k] + [ms[k]];
  }

  /** With one-word mappings and image, the run command splits into "-p" and mapping pairs in entry order. */
  lemma RunCommandWords(image: string, mappings: seq<string>)
    requires IsToken(image) && AllTokens(mappings)
    ensures Words(RunCommand(image, mappings)) == RunArgv(image, mappings)
  {
    var last := image + (" " + "/bin/sh");
    var after := PortArgs(mappings) + last;
    RunCommandRegrouped(image, PortArgs(mappings));
    assert RunCommand(image, mappings) == "docker" + (" " + ("run" + (" " + ("-it" + (" " + after)))));
    assert IsToken("/bin/sh");
    RunTail(image, mappings, "/bin/sh");
    WordsOfThreeThen("docker", "run", "-it", after);
  }

  lemma RunTail(image: string, mappings: seq<string>, sh: string)
    requires IsToken(image) && AllTokens(mappings) && IsToken(sh)
    ensures Words(PortArgs(mappings) + (image + (" " + sh))) == PortWords(mappings) + [image, sh]
  {
    var last := image + (" " + sh);
    PortArgsWords(mappings, last);
    WordsOfTokenSpaced(image, sh);
    WordsOfOneToken(sh);
  }

  lemma RunCommandRegrouped(image: string, portArgs: string)
    ensures "docker run -it " + portArgs + image + " /bin/sh"
         == "docker" + (" " + ("run" + (" " + ("-it" + (" " + (portArgs + (image + (" " + "/bin/sh"))))))))
  {
    SpacedPrefix3("docker", "run", "-it", portArgs + (image + (" " + "/bin/sh")));
    assert "docker run -it " == "docker" + " " + "run" + " " + "-it" + " ";
  }

  /** A port count of zero or less reads no mappings and gives no `-p` arguments. */
  lemma RunWithoutMappings(image: string, portCount: int, entered: seq<string>)
    requires portCount <= 0
    ensures RunCommand(image, Mappings(portCount, entered)) == "docker run -it " + image + " /bin/sh"
  {
    assert Mappings(portCount, entered) == [];
    assert "docker run -it " + "" == "docker run -it ";
  }

  /** The example: image alpine with mappings 8080:80 and 2222:22, in that order. */
  lemma RunCommandExample(image: string, mappings: seq<string>)
    requires image == "alpine" && mappings == ["8080:80", "2222:22"]
    ensures RunCommand(image, mappings) == "docker run -it -p 8080:80 -p 2222:22 alpine /bin/sh"
  {
    ExamplePortArgs(mappings);
    var portArgs := "-p 8080:80 -p 2222:22 ";
    assert "docker run -it " + portArgs == "docker run -it -p 8080:80 -p 2222:22 ";
    assert "docker run -it -p 8080:80 -p 2222:22 " + image == "docker run -it -p 8080:80 -p 2222:22 alpine";
  }

  lemma ExamplePortArgs(mappings: seq<string>)
    requires mappings == ["8080:80", "2222:22"]
    ensures PortArgs(mappings) == "-p 8080:80 -p 2222:22 "
  {
    assert mappings[1..] == ["2222:22"];
    assert PortArgs(mappings[1..]) == "-p 2222:22 ";
  }

  /** The text before the first ':' of a mapping, or all of it when there is none: `port.substr(0, port.find(':'))`. */
  function HostPort(port: string): (h: string)
    ensures h <= port
    ensures ':' !in h
    ensures h == port || port[|h|] == ':'
  {
    if port == [] || port[0] == ':' then [] else [port[0]] + HostPort(port[1..])
  }

  /** A host:container mapping yields its host part. */
  lemma {:induction false} HostPortOfMapping(host: string, container: string)
    requires ':' !in host
    ensures HostPort(host + ":" + container) == host
  {
    var p := host + ":" + container;
    if host != [] {
      assert p[0] == host[0];
      assert p[1..] == host[1..] + ":" + container;
      HostPortOfMapping(host[1..], container);
    }
  }

  /** What `spinUpMySQL` prints before it launches, and the command it runs. */
  datatype Launch = Launch(message: string, command: string)

  function MySqlCommand(port: string, password: string, version: string): (command: string)
    ensures "docker run -p " <= command
    ensures var image := " -d mysql:" + version;
      |command| >= |image| && command[|command| - |image|..] == image
  {
    "docker run -p " + port + " --name mysql-container -e MYSQL_ROOT_PASSWORD=" + password + " -d mysql:" + version
  }

  const LaunchOpening := "\nLaunching MySQL container (accessible via localhost:"

  /** The message names the host part of the mapping, the text before its first ':'. */
  function SpinUpMySql(port: string, password: string, version: string): (launch: Launch)
    ensures launch.command == MySqlCommand(port, password, version)
    ensures |launch.message| >= |LaunchOpening| + 2
    ensures launch.message[..|LaunchOpening|] == LaunchOpening
    ensures launch.message[|launch.message| - 2..] == ")\n"
    ensures var host := launch.message[|LaunchOpening|..|launch.message| - 2];
      host <= port && ':' !in host && (host == port || port[|host|] == ':')
  {
    var host := HostPort(port);
    var message := LaunchOpening + host + ")\n";
    assert message[|LaunchOpening|..|message| - 2] == host;
    Launch(message, MySqlCommand(port, password, version))
  }

  /** The argument vector the MySQL template is meant to give. */
  function MySqlArgv(port: string, password: string, version: string): seq<string>
  {
    ["docker", "run", "-p", port, "--name", "mysql-container",
     "-e", "MYSQL_ROOT_PASSWORD=" + password, "-d", "mysql:" + version]
  }

  /** With one-word answers the MySQL command publishes the port, names the container and sets the password. */
  lemma MySqlCommandWords(port: string, password: string, version: string)
    requires IsToken(port) && NoSpace(password) && NoSpace(version)
    ensures Words(MySqlCommand(port, password, version)) == MySqlArgv(port, password, version)
  {
    var env := "MYSQL_ROOT_PASSWORD=" + password;
    var image := "mysql:" + version;
    PrefixedToken("MYSQL_ROOT_PASSWORD=", password);
    PrefixedToken("mysql:", version);
    MySqlCommandSpaced(port, env, image, password, version);
    assert IsToken("docker") && IsToken("run") && IsToken("-p") && IsToken("--name");
    assert IsToken("mysql-container") && IsToken("-e") && IsToken("-d");
    WordsOfTen("docker", "run", "-p", port, "--name", "mysql-container", "-e", env, "-d", image);
  }

  /** A non-empty word run on to text without white space is still one word. */
  lemma PrefixedToken(pre: string, x: string)
    requires IsToken(pre) && NoSpace(x)
    ensures IsToken(pre + x)
  {
    forall k | 0 <= k < |pre + x| ensures !IsSpace((pre + x)[k]) {
      if k >= |pre| { assert (pre + x)[k] == x[k - |pre|]; }
    }
  }

  /** The MySQL command is its ten words, each followed by one space but the last. */
  lemma MySqlCommandSpaced(port: string, env: string, image: string, password: string, version: string)
    requires env == "MYSQL_ROOT_PASSWORD=" + password && image == "mysql:" + version
    ensures MySqlCommand(port, password, version)
      == "docker" + (" " + ("run" + (" " + ("-p" + (" " + (port + (" " + ("--name" + (" " + ("mysql-container" + (" " + ("-e" + (" " + (env + (" " + ("-d" + (" " + (image))))))))))))))))))
  {
    var rest := " -d " + image;
    var afterName := " --name mysql-container -e " + (env + rest);
    MySqlCommandRegrouped(port, password, version);
    SpacedPrefix3("docker", "run", "-p", port + afterName);
    SpacedPrefix4(" --name mysql-container -e ", "--name", "mysql-container", "-e", env + rest);
    assert rest == " " + ("-d" + (" " + image));
  }

  /** Ten words, each followed by one space but the last, split back into the ten. */
  lemma WordsOfTen(a: string, b: string, c: string, d: string, e: string, f: string, g: string, h: string, i: string, j: string)
    requires IsToken(a) && IsToken(b) && IsToken(c) && IsToken(d) && IsToken(e)
    requires IsToken(f) && IsToken(g) && IsToken(h) && IsToken(i) && IsToken(j)
    ensures Words(a + (" " + (b + (" " + (c + (" " + (d + (" " + (e + (" " + (f + (" " + (g + (" " + (h + (" " + (i + (" " + j)))))))))))))))))) == [a, b, c, d, e, f, g, h, i, j]
  {
    var tail := e + (" " + (f + (" " + (g + (" " + (h + (" " + (i + (" " + j)))))))));
    WordsOfThreeThen(a, b, c, d + (" " + tail));
    WordsOfTokenSpaced(d, tail);
    WordsOfThreeThen(e, f, g, h + (" " + (i + (" " + j))));
    WordsOfThree(h, i, j);
  }

  /** The MySQL command with its fixed text split where the words begin. */
  lemma MySqlCommandRegrouped(port: string, password: string, version: string)
    ensures MySqlCommand(port, password, version)
      == "docker run -p " + (port + (" --name mysql-container -e " + (("MYSQL_ROOT_PASSWORD=" + password) + (" -d " + ("mysql:" + version)))))
  {
    EnvironmentFlagSplit();
    ImageFlagSplit();
  }

  lemma EnvironmentFlagSplit()
    ensures " --name mysql-container -e MYSQL_ROOT_PASSWORD=" == " --name mysql-container -e " + "MYSQL_ROOT_PASSWORD="
  {
  }

  lemma ImageFlagSplit()
    ensures " -d mysql:" == " -d " + "mysql:"
  {
  }

  /** The example: for the mapping 3306:3306 the message names localhost:3306. */
  lemma MySqlExample(port: string, password: string, version: string)
    requires port == "3306:3306"
    ensures SpinUpMySql(port, password, version).message == "\nLaunching MySQL container (accessible via localhost:3306)\n"
  {
    assert port == "3306" + ":" + "3306";
    HostPortOfMapping("3306", "3306");
  }
}
