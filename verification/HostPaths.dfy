/** `hostPathViolation` of scripts/docker-socket-access.ts: which host paths give the
    Docker socket away, read off their text. */
module HostPaths {
  import opened Basics

  datatype Reason =
    | DotDot
    | Procfs
    | GivesSocket
    | NotString
    | UnresolvedSource
    | External(key: string)
    | Device(key: string, why: Reason)
    | SameVolume(key: string, other: string, why: Reason)
    | NotMount
    | UnresolvedType
    | NamedPipe
    | UnknownType

  /** `path.split('/')`. */
  function Split(path: string): (r: seq<string>)
    ensures r != [] && forall c | c in r :: '/' !in c
    decreases |path|
  {
    var head := UpTo(path, '/');
    if |head| == |path| then [path] else [head] + Split(path[|head| + 1..])
  }

  /** The names in a path: what is left without empty and `.` segments. */
  function Names(segments: seq<string>): (r: seq<string>)
    ensures forall c | c in r :: c in segments && c != "" && c != "."
  {
    if segments == [] then []
    else if segments[0] == "" || segments[0] == "." then Names(segments[1..])
    else [segments[0]] + Names(segments[1..])
  }

  /** An absolute path with these names. */
  function PathText(names: seq<string>): string {
    if names == [] then "" else "/" + (names[0] + PathText(names[1..]))
  }

  predicate Absolute(path: string) { path != "" && path[0] == '/' }

  /** The names a mount source names: a leading `~` stands for a directory the file
      does not know, like the directory relative paths start in. */
  function NamesOf(path: string): seq<string> {
    var names := Names(Split(path));
    if !Absolute(path) && Split(path)[0] == "~" then names[1..] else names
  }

  /** The normalized path without trailing slashes. */
  function Normalized(path: string): string {
    var names := NamesOf(path);
    if Absolute(path) then if names == [] then "/" else PathText(names)
    else if names == [] then "." else PathText(names)[1..]
  }

  /** Where the engine listens: /var/run/docker.sock and /run/docker.sock. */
  const SOCKETS: seq<seq<string>> := [["var", "run", "docker.sock"], ["run", "docker.sock"]]

  /** /proc, /dev/fd, /dev/stdin, /dev/stdout and /dev/stderr. */
  const PROCFS: seq<seq<string>> := [["proc"], ["dev", "fd"], ["dev", "stdin"], ["dev", "stdout"], ["dev", "stderr"]]

  /** Whether `path` is `root` or below it, by their texts. */
  predicate Covers(root: string, path: string) {
    path == root || StartsWith(path, if root == "/" then "/" else root + "/")
  }

  function HostPathViolation(path: string): Option<Reason> {
    var names := NamesOf(path);
    if ".." in Split(path) then Some(DotDot)
    else if Absolute(path) && exists root | root in PROCFS :: Covers(PathText(root), Normalized(path)) then Some(Procfs)
    else if (names != [] && names[|names| - 1] == "docker.sock")
      || (Absolute(path) && exists socket | socket in SOCKETS :: Covers(Normalized(path), PathText(socket)))
    then Some(GivesSocket)
    else None
  }

  // ----- the texts and the directories --------------------------------------

  /** Whether `path` is `socket` or a directory above it. */
  predicate AtOrAbove(path: string, socket: seq<string>) {
    NamesOf(path) <= socket
  }

  predicate IsName(c: string) { c != "" && '/' !in c }

  ghost predicate Proper(names: seq<string>) {
    forall i | 0 <= i < |names| :: IsName(names[i])
  }

  lemma {:induction false} UpToSlash(head: string, rest: string)
    requires '/' !in head && (rest == "" || rest[0] == '/')
    ensures UpTo(head + rest, '/') == head
  {
    if head == "" {
      assert head + rest == rest;
    } else {
      assert head[0] in head && (head + rest)[1..] == head[1..] + rest;
      UpToSlash(head[1..], rest);
    }
  }

  /** The first name of a path text, read back. */
  lemma FirstName(name: string, more: string, other: string, rest: string)
    requires '/' !in name && '/' !in other
    requires (more == "" || more[0] == '/') && (rest == "" || rest[0] == '/')
    requires StartsWith("/" + (other + rest), "/" + (name + more)) && more != ""
    ensures name == other && StartsWith(rest, more)
  {
    var long, short := "/" + (other + rest), "/" + (name + more);
    var tail := long[|short|..];
    assert long == short + tail;
    assert long[1..] == other + rest && long[1..] == name + (more + tail);
    UpToSlash(other, rest);
    UpToSlash(name, more + tail);
    assert (other + rest)[|other|..] == rest;
    assert (name + (more + tail))[|name|..] == more + tail;
    assert (more + tail)[..|more|] == more;
  }

  lemma StartsJoined(head: string, short: string, long: string)
    requires StartsWith(long, short)
    ensures StartsWith(head + long, head + short)
  {
    assert (head + long)[..|head| + |short|] == head + long[..|short|];
  }

  /** A path text followed by a slash starts another exactly when its names do. */
  lemma {:induction false} StartsIffPrefix(names: seq<string>, socket: seq<string>)
    requires Proper(names) && Proper(socket)
    ensures StartsWith(PathText(socket) + "/", PathText(names) + "/") <==> names <= socket
  {
    if names == [] {
      if socket == [] {
      } else {
        assert PathText(socket) + "/" == "/" + (socket[0] + PathText(socket[1..]) + "/");
      }
    } else if socket == [] {
      assert |PathText(names)| > 0;
    } else {
      assert IsName(names[0]) && IsName(socket[0]);
      var more, rest := PathText(names[1..]) + "/", PathText(socket[1..]) + "/";
      assert PathText(names) + "/" == "/" + (names[0] + more);
      assert PathText(socket) + "/" == "/" + (socket[0] + rest);
      StartsIffPrefix(names[1..], socket[1..]);
      if StartsWith(PathText(socket) + "/", PathText(names) + "/") {
        FirstName(names[0], more, socket[0], rest);
      }
      if names <= socket {
        assert names[0] == socket[0] && names[1..] == socket[1..][..|names| - 1];
        StartsJoined(names[0], more, rest);
        StartsJoined("/", names[0] + more, socket[0] + rest);
      }
      if names[0] == socket[0] && names[1..] <= socket[1..] {
        assert names == [names[0]] + names[1..] && socket == [socket[0]] + socket[1..];
      }
    }
  }

  /** The check by text is the check by names. */
  lemma CoversIffPrefix(names: seq<string>, socket: seq<string>)
    requires Proper(names) && Proper(socket) && socket != []
    ensures Covers(if names == [] then "/" else PathText(names), PathText(socket)) <==> names <= socket
  {
    var text, whole := PathText(names), PathText(socket);
    StartsIffPrefix(names, socket);
    if names == [] {
      assert whole[..1] == "/";
    } else {
      assert IsName(names[0]) && |text| > 1;
      if StartsWith(whole + "/", text + "/") {
        if |text| == |whole| {
          assert text == (text + "/")[..|text|] == (whole + "/")[..|text|] == whole;
        } else {
          assert (whole + "/")[..|text| + 1] == whole[..|text| + 1];
        }
      }
      if Covers(text, whole) && whole != text {
        assert (whole + "/")[..|text| + 1] == whole[..|text| + 1];
      }
    }
  }

  /** What the kernel may make of an absolute path: with a `..` segment or below
      procfs it may lead anywhere; otherwise its names say where it leads. */
  ghost predicate LeadsAnywhere(path: string) {
    ".." in Split(path) || exists root | root in PROCFS :: root <= NamesOf(path)
  }

  /** Whether an absolute path is a socket, a directory above one, or may lead to one. */
  ghost predicate MayGive(path: string) {
    Absolute(path) && (LeadsAnywhere(path) || exists socket | socket in SOCKETS :: AtOrAbove(path, socket))
  }

  predicate EndsInSocket(path: string) {
    var names := NamesOf(path);
    names != [] && names[|names| - 1] == "docker.sock"
  }

  lemma NamesProper(path: string)
    ensures Proper(NamesOf(path))
  {
    var names := NamesOf(path);
    forall i | 0 <= i < |names| ensures IsName(names[i]) {
      assert names[i] in Split(path);
    }
  }

  lemma ProcfsIffPrefix(path: string, root: seq<string>)
    requires Absolute(path) && Proper(root) && root != []
    ensures Covers(PathText(root), Normalized(path)) <==> root <= NamesOf(path)
  {
    NamesProper(path);
    if NamesOf(path) == [] {
      assert IsName(root[0]) && |PathText(root)| > 1;
    } else {
      CoversIffPrefix(root, NamesOf(path));
    }
  }

  /** What the check is cautious about besides: a name that a socket has, and a `..` in a
      path whose start the file does not know. */
  predicate Doubtful(path: string) { EndsInSocket(path) || ".." in Split(path) }

  /** The check is exact on every path: it finds something exactly when the path may give
      a socket away or is doubtful. */
  lemma HostPathIsExact(path: string)
    ensures HostPathViolation(path).Some? <==> MayGive(path) || Doubtful(path)
  {
    if Absolute(path) {
      NamesProper(path);
      forall socket | socket in SOCKETS
        ensures Covers(Normalized(path), PathText(socket)) <==> AtOrAbove(path, socket)
      {
        CoversIffPrefix(NamesOf(path), socket);
      }
      forall root | root in PROCFS ensures Covers(PathText(root), Normalized(path)) <==> root <= NamesOf(path) {
        ProcfsIffPrefix(path, root);
      }
    }
  }
}
