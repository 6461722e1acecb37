# tuxdock: container selection and command construction

tuxdock is a terminal menu over the `docker` command-line tool. Its single class,
`DockerManager`, keeps no state. Each menu entry either hands a command line to
the shell or lists the containers, lets the operator pick one by its ordinal and
then hands a command line for it to the shell. This project models the part of
`main.cpp` that decides what happens:

- `getContainerList`: parsing the output of `docker ps -a --format '{{.ID}} {{.Names}}'`
  into (id, name) pairs. This is `Listing.GetContainerList`, specified by `Listing.ParseListing`.
- `selectContainer`: the numbered menu, the range check on the choice, and the full
  id it returns. This is `Selection.SelectContainer`, with `Selection.RenderMenu` for the menu loop.
- The command lines built by `pullImage`, `runContainerInteractive`, `startInteractive`,
  `startDetached`, `deleteImage`, `stopContainer`, `removeContainer`, `execShell` and
  `spinUpMySQL`. These live in module `Commands`.
- The emptiness check on the address that `showContainerIP` reads back. This is module `Inspect`.

How the world outside the program is represented:

- **Pipes are inputs.** A pipe is `None` when `popen` fails. Otherwise, for the listing, it
  is the strings that successive `fgets` calls return. For the inspect command it is the
  whole text the command writes.
- **The operator's answers are inputs.**
  - Integer answers form a stream (`seq<int>`). When the stream has run out, the program's
    `choice` is never assigned and its value is indeterminate. The model takes 0 there, a
    choice the range check rejects.
  - String answers are parameters of the builders.
- **What a handler writes** to `cout` is the strings it writes, in order, one per output statement.
- **What a handler runs** is the command string it would pass to `system`.

`Text.ReadToken` models one `>>` from a `stringstream` into a `std::string`. It skips
C-locale `isspace` characters, then takes the longest run of non-space characters.
`Text.Words` repeats it. Each command builder is paired with the argument vector its
template intends (`ActionArgv`, `RunArgv`, `MySqlArgv`). A lemma shows that the command's
words are that vector whenever every operator-supplied piece is one word. Such a command
is white-space-free pieces joined by single spaces. When the pieces also hold no shell
metacharacters (`;`, `|`, `&`, `<`, `>`, parentheses, quotes, a leading `#`), `Words`
agrees with the way a shell splits the unquoted command line into arguments.

Three consequences of the code that the model states outright:

- The inspect template, `{{range.NetworkSettings.Networks}}{{.IPAddress}}{{end}}`, ranges over
  every network the container is attached to and prints each address with nothing between
  them. `Inspect.TwoNetworksRunTogether` states the report for two networks.
- Commands are built by plain concatenation, with no quoting of what the operator typed.
  The word-split lemmas therefore carry one-word hypotheses on those answers.
- When the inspect pipe cannot be opened, `showContainerIP` prints "Failed to inspect
  container." (main.cpp:180-182). `Inspect.ClassifyIp` keeps this as an outcome of its own,
  apart from the empty address.

## Model

| member | source | states |
|---|---|---|
| `Listing.ParseLine` | main.cpp:47-51 | a line yields an entry only when both extracted tokens are non-empty, and each field of the entry is then non-empty and free of white space |
| `Listing.ParseLineWords` | main.cpp:47-51 | a line yields an entry exactly when it has at least two words; the entry is the first two, and later words are ignored |
| `Listing.ParseListing` | main.cpp:45-52 | the list has no more entries than lines were read, and every entry has a non-empty, white-space-free id and name |
| `Listing.GetContainerList` | main.cpp:37-55 | a pipe that cannot be opened gives the empty list; otherwise the loop's result is the line-by-line parse of what was read |
| `Listing.ContainerList` | main.cpp:42-43 | a listing pipe that cannot be opened gives no containers; otherwise there are no more containers than strings read, each with a non-empty, white-space-free id and name |
| `Listing.ParseListingAppend` | main.cpp:45-51 | parsing works line by line: the entries of two stretches of output are those of the first followed by those of the second |
| `Listing.ParseListingMembers` | main.cpp:45-51 | a container is in the list if and only if some line read yields it |
| `Listing.ParseListingAllRows` | main.cpp:45-51 | when every line has two words, entry k comes from line k and nothing is dropped |
| `Listing.ParseFormatRow` | main.cpp:39-51 | a row printed under the format `{{.ID}} {{.Names}}` that one 256-byte `fgets` returns whole parses back to the same container |
| `Listing.ParseFormatListing` | main.cpp:39-52 | parsing the rows docker prints for a list of containers, each short enough for one 256-byte `fgets`, gives back that list, in the same order |
| `Listing.LongRowIsCut` | main.cpp:39-51 | a row of 257 to 510 bytes whose first 255 bytes end inside the name arrives as two strings; the first yields the container with its name cut off and the second, one word, is skipped, so the listing holds the cut name |
| `Listing.FullBufferRowKeepsName` | main.cpp:39-51 | a row of exactly 256 bytes arrives as its first 255 bytes and a lone newline; the listing holds the container with its whole name |
| `Text.ReadTokenSplits` | main.cpp:48-50 | one extraction skips leading white space only, returns a run free of white space that is followed by white space or the end, and returns empty exactly when the input is all white space |
| `Text.WordsOfUnwords` | main.cpp:33-35 | arguments joined by single spaces, each one word, split back into exactly those arguments |
| `Text.Prefix` | main.cpp:67 | `substr(0, 12)` is a prefix of the id, of length 12 or the whole id when it is shorter |
| `Text.NatToStringRoundTrip` | main.cpp:67 | the ordinal printed in front of a menu line reads back as that number |
| `Selection.ReadInt` | main.cpp:71 | a read takes the next integer of the stream and leaves the rest; once the stream has run out it gives 0 and leaves nothing |
| `Selection.Select` | main.cpp:58-78 | there is nothing to choose from exactly when the list is empty; a container is chosen exactly when the list is non-empty and the integer read lies in 1..size, and its id is then the id of a listed container |
| `Selection.Unread` | main.cpp:59-71 | with no containers the whole input is left unread; otherwise exactly one integer is consumed (none is left once the stream has run out) |
| `Selection.MenuLine` | main.cpp:67 | a menu line starts with the ordinal, ". " and the name, and ends with " (", the 12-character prefix of the id, ")" and a newline |
| `Selection.PromptLine` | main.cpp:70 | the prompt is the handler's own text followed by " (1-", the number of containers and "): " |
| `Selection.SelectionOutput` | main.cpp:57-79 | with no containers only "No containers available."; otherwise the header, then line k+1 for container k, then the prompt, then "Invalid selection." exactly when the choice is rejected, and nothing else |
| `Selection.Pick` | main.cpp:73-78 | a choice is accepted exactly when 1 <= choice <= size; it then gives the id of entry choice-1, and otherwise gives the invalid outcome |
| `Selection.RenderMenu` | main.cpp:64-67 | the menu has one line per container, numbered from 1 in list order, each with the name and a 12-character prefix of the id |
| `Selection.SelectContainer` | main.cpp:57-79 | returns the full id of the chosen container, or "" when there are none or the choice is rejected; reads one integer exactly when there are containers; writes exactly the lines of `SelectionOutput` |
| `Selection.SelectedIdEmptyIffNotChosen` | main.cpp:57-79 | the string returned is empty if and only if no container was chosen, because listed ids are never empty |
| `Selection.EmptyListReadsNothing` | main.cpp:59-62 | when no line has two words (or the pipe fails), selection ends with no containers and leaves the whole input unread |
| `Selection.ChosenIdIsListed` | main.cpp:47-78 | a chosen id is one word, and it is the first word of some line of the listing |
| `Selection.ChooseFromFormattedListing` | main.cpp:42-78 | over docker's rows for a list of containers whose rows fit the 256-byte buffer, choosing k returns the k-th container's full id and consumes exactly that one integer |
| `Selection.MenuShowsPrefixOfChosenId` | main.cpp:66-78 | the menu shows only a 12-character prefix of the id at ordinal k, yet choosing k returns the whole id, of which that is a proper prefix when the id is longer |
| `Selection.TwoRowExample` | main.cpp:42-78 | docker prints the rows "abc123456789 web" and "def987654321 db" for the two containers, they parse back to those containers, and choice 2 returns "def987654321" |
| `Selection.TwoRowMenu` | main.cpp:64-67 | the example's menu is exactly the lines "1. web (abc123456789)" and "2. db (def987654321)", each ending in a newline |
| `Commands.PullCommand` | main.cpp:87 | the pull command is "docker pull " followed by exactly the image name read |
| `Commands.DeleteImageCommand` | main.cpp:135 | the delete command is "docker rmi " followed by exactly the image name or id read |
| `Commands.ActionPrompt` | main.cpp:122-149 | every container handler's prompt starts with "Select " |
| `Commands.ActionCommand` | main.cpp:123-150 | every container handler's command starts with "docker " and ends with the id, followed by " /bin/sh" for exec only |
| `Commands.PullCommandWords` | main.cpp:83-88 | a one-word image name gives the argument vector docker, pull, image |
| `Commands.DeleteImageCommandWords` | main.cpp:131-136 | a one-word image name or id gives the argument vector docker, rmi, image |
| `Commands.ActionCommandWords` | main.cpp:121-151 | each container handler's command, for a one-word id, splits into its intended vector: the docker subcommand and flags, then the id (and /bin/sh for exec) |
| `Commands.ContainerHandler` | main.cpp:121-151 | a container handler runs a command exactly when a container was chosen, and then the action's command for the chosen id; it writes exactly the selection's lines for its own prompt and leaves the same input unread |
| `Commands.HandlerTargetsChosenContainer` | main.cpp:121-151 | for any listing and a valid choice k, the command's id argument is the full id of entry k |
| `Commands.Mappings` | main.cpp:95-106 | the mappings read: none for a count of zero or less, otherwise exactly count of them in entry order, empty once the answers run out |
| `Commands.PortArgs` | main.cpp:108-109 | the `-p` arguments are empty exactly when there are no mappings; otherwise they start with "-p " and end with a space |
| `Commands.PortArgsSnoc` | main.cpp:108-109 | appending "-p m " for one more mapping extends the `-p` arguments at the end |
| `Commands.PortArgsWords` | main.cpp:99-109 | with one-word mappings, the `-p` arguments split into "-p", mapping pairs in entry order, followed by whatever comes after |
| `Commands.RunCommand` | main.cpp:115 | the run command is "docker run -it ", then the `-p` arguments, then the image, then " /bin/sh", with nothing else in it |
| `Commands.RunContainerInteractive` | main.cpp:90-116 | both loops together build "docker run -it ", then "-p m " for each mapping in order, then the image and " /bin/sh" |
| `Commands.RunCommandWords` | main.cpp:99-115 | with one-word image and mappings, the run command's words are docker, run, -it, the "-p"/mapping pairs in order, the image, /bin/sh |
| `Commands.RunWithoutMappings` | main.cpp:99-115 | a port count of zero or less gives no `-p` argument at all |
| `Commands.RunCommandExample` | main.cpp:99-115 | image alpine with mappings 8080:80 and 2222:22 gives "docker run -it -p 8080:80 -p 2222:22 alpine /bin/sh" |
| `Commands.HostPort` | main.cpp:163 | the host port is the longest prefix without ':' and stops at the first ':' (the whole text when there is none) |
| `Commands.HostPortOfMapping` | main.cpp:162-163 | for a mapping host:container whose host part has no ':', the host port is exactly the host part |
| `Commands.MySqlCommand` | main.cpp:164-166 | the MySQL command starts with "docker run -p " and ends with " -d mysql:" and the version tag |
| `Commands.SpinUpMySql` | main.cpp:162-166 | it runs the MySQL command, and its message is the launch text, then the host part of the mapping (a prefix of it, without ':', ending at the first ':' or the end), then ")" and a newline |
| `Commands.MySqlCommandWords` | main.cpp:164-166 | with one-word answers, the MySQL command publishes the port, names the container mysql-container, sets MYSQL_ROOT_PASSWORD and runs mysql:version detached |
| `Commands.MySqlExample` | main.cpp:162-163 | for the mapping 3306:3306, the message names localhost:3306 |
| `Inspect.InspectCommand` | main.cpp:175 | the inspect command is "docker inspect -f ", the template and a space, and ends with the id |
| `Inspect.InspectCommandWords` | main.cpp:175 | for a one-word id, the inspect command's words are docker, inspect, -f, the template (still one word), then the id |
| `Inspect.LineChunk` | main.cpp:185-186 | one `fgets` keeps a prefix of the text of at most 127 characters, ending at the first newline if one is reached, and nothing past it |
| `Inspect.CapturedIp` | main.cpp:185-187 | the line kept is a prefix of what the command wrote, shorter than the 128-byte buffer, empty exactly when the command wrote nothing, and ends at its first newline if it holds one |
| `Inspect.ClassifyIp` | main.cpp:179-193 | failure is reported exactly when the pipe could not be opened, and no address exactly when the line read is "" or "\n"; any other line is reported |
| `Inspect.IpMessage` | main.cpp:180-193 | the failure message for a pipe that could not be opened, the no-address message for an empty line, and otherwise "Container IP Address: " followed by the line exactly as read |
| `Inspect.ShowContainerIp` | main.cpp:171-194 | inspects only when a container was chosen, with the inspect command for its id; writes the selection's lines for its prompt and then, when a container was chosen, exactly the message for the classified line |
| `Inspect.Concat` | main.cpp:175 | the addresses run together are empty exactly when every network's address is empty |
| `Inspect.TemplateReport` | main.cpp:175-193 | for a template answer whose addresses, run together, hold no newline and fewer than 127 characters: no address is reported exactly when every network's address is empty; otherwise all addresses run together, with the newline |
| `Inspect.TwoNetworksRunTogether` | main.cpp:175-193 | with two networks the report is both addresses run together, not the first alone |
| `Inspect.BlankLineIsReported` | main.cpp:190-193 | a line of white space other than a lone newline is reported as an address, unchanged |
| `Inspect.FirstLineOnly` | main.cpp:185-187 | the address reported is a prefix of what the command wrote, ends at its first newline, and holds at most 127 characters |

## Left out

- Process creation (`system`, `popen`, `pclose`) is left out. Pipes are inputs, and a command appears as the string passed to `system`.
- The effects of the commands on docker are not modelled.
- The main menu loop and its dispatch (main.cpp:198-243) are not modelled.
- The prompts of the non-selection handlers are left out.
- The port-forwarding explanation of `runContainerInteractive` (main.cpp:111-113) is left out.
- The operator's answers come from one `cin` stream in the program. The model reads integers from a stream of its own and takes strings as parameters.
- `cin` failure states are not modelled: a failed read of a non-number, and its effect on later reads.
- Selection.ReadInt: at the end of input the program's `choice` is never assigned and its value is indeterminate; the model takes 0 there, an invalid choice.
- `getContainerList` reads with a 256-byte `fgets`. The model takes the strings it returns, so a line longer than 255 bytes splits into pieces of at most 255 bytes, each a string of the input. A row of exactly 256 bytes keeps its name: its newline arrives alone (`Listing.FullBufferRowKeepsName`).
- Listing.ParseFormatRow (and likewise `Listing.ParseFormatListing`, `Selection.ChooseFromFormattedListing`): the round trip is stated only for rows shorter than the 256-byte buffer; a row of 257 bytes or more can come back with its name cut off, as `Listing.LongRowIsCut` states for rows of up to 510 bytes.
- A NUL character in a pipe's output is not modelled. The program would stop the string there when it copies the buffer into a `std::string`.
- The shell is modelled only as word splitting of unquoted text. There is no quote removal, no expansion and no metacharacters. The single quotes around the inspect template stay part of its word.
- `Words` splits at every C-locale white-space character. A shell splits only at blanks (space and tab), ends the command at a newline, and treats vertical tab, form feed and carriage return as ordinary characters. The word-split lemmas only apply `Words` to white-space-free pieces joined by single spaces, where the two agree.
- Strings are sequences of characters where the program counts bytes: `substr(0, 12)` (main.cpp:67), the 128-byte and 256-byte `fgets` buffers (main.cpp:39, 177, 185). The two agree on ASCII text, which docker ids, container names and IP addresses are.
- The C++ `int` limits of the choice and the port count are not modelled. `static_cast<int>(containers.size())` is not modelled either. Integers are unbounded.
- Commands.MySqlExample: states only the launch message. The command itself is covered for all one-word answers by `Commands.MySqlCommandWords`.
- Commands.PullCommandWords (and likewise `Commands.DeleteImageCommandWords`, `Commands.RunCommandWords`, `Commands.MySqlCommandWords`): holds only when what the operator typed is one word. `cin >> s` always gives one word, unless the input has run out.
- Inspect.TemplateReport: stated only for answers whose addresses, run together, hold no newline and fewer than 127 characters; a longer answer is cut at 127 characters, as `Inspect.FirstLineOnly` states for any answer.
