/**
 A job: which commands run on which hosts, and with what around them.
 */
module JobConfig {
  import opened Options

  datatype Output = Output(file: string, raw: bool, overwrite: bool)

  /** command and commands exclude each other; an empty string or list counts as missing. */
  datatype Command = Command(command: string, commands: seq<Command>, flow: string, target: string, retries: nat,
                             timeout: string, ignoreError: bool, stdout: Option<Output>, stderr: Option<Output>)

  datatype Host = Host(name: string, addr: string, port: nat, user: string, privateKey: string, password: string)

  /** What reading the hosts files gives, the hosts in the order in which they are then walked. */
  datatype HostsFile = Unreadable | Readable(hosts: seq<Host>)

  datatype Endpoints = Endpoints(remoteHost: string, remotePort: nat, localHost: string, localPort: nat)

  datatype ScpServer = ScpServer(addr: string, port: nat, key: string)

  datatype Config = Config(name: string, timeout: string, output: Option<Output>,
                           host: Option<Host>, hostsFile: Option<HostsFile>,
                           pre: Option<Command>, command: Option<Command>, post: Option<Command>,
                           forwarding: Option<Endpoints>, tunnel: Option<Endpoints>, scp: Option<ScpServer>)

  const LOCAL := "local"
  const SEQUENTIAL := "sequential"
  const PARALLEL := "parallel"

  /** time.ParseDuration; unspecified, so every result holds whatever it accepts. */
  const DURATION: string -> Option<int>

  /** Some command in it runs on the remote host. */
  predicate IsRemote(c: Command)
    decreases c
  {
    (c.command != "" && c.target != LOCAL) || exists child :: child in c.commands && IsRemote(child)
  }

  /** The command with every target made local. The timeout is not taken over. */
  function Localized(c: Command): Command
    decreases c
  {
    c.(target := LOCAL, timeout := "", commands := LocalizedAll(c.commands))
  }

  function LocalizedAll(cs: seq<Command>): seq<Command>
    decreases cs
  {
    if cs == [] then [] else [Localized(cs[0])] + LocalizedAll(cs[1..])
  }

  /** lc is c in all but its place, which is here, and its timeout, which is gone; and so are the commands in it. */
  predicate Relocates(c: Command, lc: Command)
    decreases c
  {
    && lc.command == c.command && lc.flow == c.flow && lc.retries == c.retries && lc.ignoreError == c.ignoreError
    && lc.stdout == c.stdout && lc.stderr == c.stderr
    && lc.target == "local" && lc.timeout == ""
    && |lc.commands| == |c.commands|
    && forall i :: 0 <= i < |c.commands| ==> Relocates(c.commands[i], lc.commands[i])
  }

  /** This tells the localized command. */
  lemma {:induction false} RelocatesExactlyIf(c: Command, lc: Command)
    ensures Relocates(c, lc) <==> lc == Localized(c)
    decreases c
  {
    var l := Localized(c).commands;
    LocalizedOneByOne(c.commands);
    forall i | 0 <= i < |c.commands| && |lc.commands| == |c.commands|
      ensures Relocates(c.commands[i], lc.commands[i]) <==> lc.commands[i] == l[i]
    {
      RelocatesExactlyIf(c.commands[i], lc.commands[i]);
    }
    if Relocates(c, lc) {
      assert lc.commands == l;
    }
  }

  lemma {:induction false} LocalizedOneByOne(cs: seq<Command>)
    ensures |LocalizedAll(cs)| == |cs| && forall i :: 0 <= i < |cs| ==> LocalizedAll(cs)[i] == Localized(cs[i])
    decreases |cs|
  {
    if cs != [] {
      LocalizedOneByOne(cs[1..]);
    }
  }

  /** localCommand */
  method LocalCommand(c: Command) returns (lc: Command)
    ensures lc == Localized(c) && Relocates(c, lc)
    decreases c
  {
    var commands := [];
    if |c.commands| > 0 {
      for i := 0 to |c.commands|
        invariant commands + LocalizedAll(c.commands[i..]) == LocalizedAll(c.commands)
      {
        var child := LocalCommand(c.commands[i]);
        LocalizedOneMore(commands, c.commands, i);
        commands := commands + [child];
      }
    }
    lc := Command(c.command, commands, c.flow, LOCAL, c.retries, "", c.ignoreError, c.stdout, c.stderr);
    RelocatesExactlyIf(c, lc);
  }

  lemma LocalizedOneMore(done: seq<Command>, cs: seq<Command>, i: nat)
    requires i < |cs|
    ensures done + LocalizedAll(cs[i..]) == done + [Localized(cs[i])] + LocalizedAll(cs[i + 1..])
  {
    assert cs[i..][1..] == cs[i + 1..];
  }

  /** No command is left that runs on a remote host, at any depth. */
  lemma {:induction false} LocalizedIsNotRemote(c: Command)
    ensures !IsRemote(Localized(c))
    decreases c
  {
    LocalizedAreNotRemote(c.commands);
  }

  lemma {:induction false} LocalizedAreNotRemote(cs: seq<Command>)
    ensures forall c :: c in LocalizedAll(cs) ==> !IsRemote(c)
    decreases cs
  {
    if cs != [] {
      LocalizedIsNotRemote(cs[0]);
      LocalizedAreNotRemote(cs[1..]);
    }
  }
}
