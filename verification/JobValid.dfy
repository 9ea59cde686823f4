/**
 Which jobs the visitor accepts.
 */
module JobValid {
  import opened Options
  import opened JobConfig
  import opened JobVisit

  predicate ValidTimeout(timeout: string) {
    timeout == "" || DURATION(timeout).Some?
  }

  /** A command, or a list of valid ones and how to run them. */
  predicate ValidCommand(cmd: Command)
    decreases cmd
  {
    && ValidTimeout(cmd.timeout)
    && if cmd.command != "" then cmd.commands == []
       else
         && cmd.commands != [] && (cmd.flow == "sequential" || cmd.flow == "parallel")
         && forall c :: c in cmd.commands ==> ValidCommand(c)
  }

  /** Timeouts play no role in a command that is made local. */
  predicate ValidLocalCommand(cmd: Command)
    decreases cmd
  {
    if cmd.command != "" then cmd.commands == []
    else
      && cmd.commands != [] && (cmd.flow == "sequential" || cmd.flow == "parallel")
      && forall c :: c in cmd.commands ==> ValidLocalCommand(c)
  }

  predicate ValidConfig(c: Config) {
    && c.host.Some? != c.hostsFile.Some?
    && (c.hostsFile.Some? ==> c.hostsFile.value.Readable?)
    && ValidTimeout(c.timeout)
    && (c.pre.Some? ==> ValidLocalCommand(c.pre.value))
    && (c.post.Some? ==> ValidLocalCommand(c.post.value))
    && c.command.Some? && ValidCommand(c.command.value)
    && (c.forwarding.Some? || c.tunnel.Some? ==>
          IsRemote(c.command.value) || (c.hostsFile.Some? && c.hostsFile.value.hosts == []))
  }

  lemma {:induction false} CommandAccepted(cmd: Command, n: nat)
    ensures VisitCommand(cmd, n).Visited? <==> ValidCommand(cmd)
    decreases cmd, 1
  {
    hide Plain, AllPlain;
    if ValidTimeout(cmd.timeout) && cmd.command == "" {
      var n1 := Redirect(cmd, n + 1).next;
      CommandsAccepted(cmd.commands, Limit(cmd.timeout, n1).next + 1);
    }
  }

  lemma {:induction false} CommandsAccepted(cmds: seq<Command>, n: nat)
    ensures VisitAll(cmds, n).Visited? <==> forall c :: c in cmds ==> ValidCommand(c)
    decreases cmds
  {
    if cmds != [] {
      CommandAccepted(cmds[0], n);
      if VisitCommand(cmds[0], n).Visited? {
        CommandsAccepted(cmds[1..], VisitCommand(cmds[0], n).next);
      }
    }
  }

  lemma {:induction false} LocalizedValid(cmd: Command)
    ensures ValidCommand(Localized(cmd)) <==> ValidLocalCommand(cmd)
    decreases cmd, 1
  {
    LocalizedAllValid(cmd.commands);
  }

  lemma {:induction false} LocalizedAllValid(cmds: seq<Command>)
    ensures LocalizedAll(cmds) == [] <==> cmds == []
    ensures (forall c :: c in LocalizedAll(cmds) ==> ValidCommand(c)) <==>
            (forall c :: c in cmds ==> ValidLocalCommand(c))
    decreases cmds
  {
    if cmds != [] {
      LocalizedValid(cmds[0]);
      LocalizedAllValid(cmds[1..]);
      assert LocalizedAll(cmds)[0] in LocalizedAll(cmds);
      assert forall c :: c in LocalizedAll(cmds) <==> c == Localized(cmds[0]) || c in LocalizedAll(cmds[1..]);
      assert forall c :: c in cmds <==> c == cmds[0] || c in cmds[1..];
    }
  }

  lemma LocalAccepted(cmd: Option<Command>, n: nat)
    ensures VisitLocal(cmd, n).Visited? <==> cmd.None? || ValidLocalCommand(cmd.value)
  {
    if cmd.Some? {
      CommandAccepted(Localized(cmd.value), n);
      LocalizedValid(cmd.value);
    }
  }

  lemma {:induction false} HostsAccepted(c: Config, cmd: Command, t: Tree, hosts: seq<Host>, n: nat)
    ensures VisitHosts(c, cmd, t, hosts, n).Visited? <==>
            hosts == [] || IsRemote(cmd) || (c.forwarding.None? && c.tunnel.None?)
    decreases |hosts|
  {
    if hosts != [] && VisitHost(c, cmd, t, hosts[0], n).Visited? {
      HostsAccepted(c, cmd, t, hosts[1..], VisitHost(c, cmd, t, hosts[0], n).next);
    }
  }

  lemma TargetsAccepted(c: Config, cmd: Command, t: Tree, n: nat)
    requires c.host.Some? != c.hostsFile.Some?
    ensures VisitTargets(c, cmd, t, n).Visited? <==>
            && (c.hostsFile.Some? ==> c.hostsFile.value.Readable?)
            && (c.forwarding.Some? || c.tunnel.Some? ==>
                  IsRemote(cmd) || (c.hostsFile.Some? && c.hostsFile.value.hosts == []))
  {
    if c.hostsFile.Some? && c.hostsFile.value.Readable? {
      HostsAccepted(c, cmd, t, c.hostsFile.value.hosts, n + 1);
    }
  }

  /** The visitor makes a tree of exactly the valid jobs. */
  lemma ConfigAccepted(c: Config)
    ensures VisitConfig(c).Visited? <==> ValidConfig(c)
  {
    hide VisitCommand, VisitLocal, VisitTargets, Plain, AllPlain, ValidCommand, ValidLocalCommand;
    if c.host.Some? != c.hostsFile.Some? && SetUp(c, 1).Visited? {
      var n1 := SetUp(c, 1).next;
      LocalAccepted(c.pre, n1);
      if VisitLocal(c.pre, n1).Visited? && c.command.Some? {
        var n2 := VisitLocal(c.pre, n1).next;
        CommandAccepted(c.command.value, n2);
        if VisitCommand(c.command.value, n2).Visited? {
          var (t, n3) := VisitCommand(c.command.value, n2).Extract();
          TargetsAccepted(c, c.command.value, t, n3);
          if VisitTargets(c, c.command.value, t, n3).Visited? {
            LocalAccepted(c.post, VisitTargets(c, c.command.value, t, n3).next);
          }
        }
      }
    }
  }

  // ---- errors

  /** The command or one in it, at any depth, is like that. */
  ghost predicate Within(cmd: Command, p: Command -> bool)
    decreases cmd
  {
    p(cmd) || exists c :: c in cmd.commands && Within(c, p)
  }

  /** What an error says is so. */
  ghost predicate TrueOf(e: VisitError, cmd: Command) {
    match e
    case BadTimeout(text) => text != "" && DURATION(text).None? && Within(cmd, (c: Command) => c.timeout == text)
    case CommandAndCommands => Within(cmd, (c: Command) => c.command != "" && c.commands != [])
    case NoCommand => Within(cmd, (c: Command) => c.command == "" && c.commands == [])
    case UnknownFlow(flow) => flow != "sequential" && flow != "parallel" && Within(cmd, (c: Command) => c.flow == flow)
    case _ => false
  }

  ghost predicate TrueOfJob(e: VisitError, c: Config) {
    match e
    case NoHost => c.host.None? && c.hostsFile.None?
    case HostAndHosts => c.host.Some? && c.hostsFile.Some?
    case HostsUnreadable => c.hostsFile.Some? && c.hostsFile.value.Unreadable?
    case NilCommand => c.command.None?
    case NothingToForward => c.forwarding.Some? && c.command.Some? && !IsRemote(c.command.value)
    case NothingToTunnel => c.tunnel.Some? && c.command.Some? && !IsRemote(c.command.value)
    case _ =>
      || (c.command.Some? && TrueOf(e, c.command.value))
      || (c.pre.Some? && TrueOf(e, Localized(c.pre.value)))
      || (c.post.Some? && TrueOf(e, Localized(c.post.value)))
      || (e.BadTimeout? && e.text == c.timeout != "" && DURATION(c.timeout).None?)
  }

  lemma {:induction false} CommandErrorIsTrue(cmd: Command, n: nat)
    requires VisitCommand(cmd, n).Rejected?
    ensures TrueOf(VisitCommand(cmd, n).error, cmd)
    decreases cmd, 1
  {
    hide Plain, AllPlain;
    if !(cmd.command != "" && cmd.commands != []) && Limit(cmd.timeout, Redirect(cmd, n + 1).next).Visited? {
      var n2 := Limit(cmd.timeout, Redirect(cmd, n + 1).next).next;
      if cmd.commands != [] && FlowKind(cmd.flow).Visited? && VisitAll(cmd.commands, n2 + 1).Rejected? {
        var c := CommandsErrorIsTrue(cmd.commands, n2 + 1);
        TrueWithin(VisitAll(cmd.commands, n2 + 1).error, cmd, c);
      }
    }
  }

  lemma TrueWithin(e: VisitError, cmd: Command, c: Command)
    requires c in cmd.commands && TrueOf(e, c)
    ensures TrueOf(e, cmd)
  {
  }

  lemma {:induction false} CommandsErrorIsTrue(cmds: seq<Command>, n: nat) returns (c: Command)
    requires VisitAll(cmds, n).Rejected?
    ensures c in cmds && TrueOf(VisitAll(cmds, n).error, c)
    decreases cmds, 0
  {
    if VisitCommand(cmds[0], n).Rejected? {
      CommandErrorIsTrue(cmds[0], n);
      c := cmds[0];
    } else {
      c := CommandsErrorIsTrue(cmds[1..], VisitCommand(cmds[0], n).next);
    }
  }

  lemma {:induction false} HostsErrorIsTrue(c: Config, cmd: Command, t: Tree, hosts: seq<Host>, n: nat)
    requires VisitHosts(c, cmd, t, hosts, n).Rejected?
    ensures var e := VisitHosts(c, cmd, t, hosts, n).error;
            !IsRemote(cmd) && ((e.NothingToForward? && c.forwarding.Some?) || (e.NothingToTunnel? && c.tunnel.Some?))
    decreases |hosts|
  {
    if VisitHost(c, cmd, t, hosts[0], n).Visited? {
      HostsErrorIsTrue(c, cmd, t, hosts[1..], VisitHost(c, cmd, t, hosts[0], n).next);
    }
  }

  /** What the visitor says is wrong with a job is wrong with it. */
  lemma ErrorIsTrue(c: Config)
    requires VisitConfig(c).Rejected?
    ensures TrueOfJob(VisitConfig(c).error, c)
  {
    hide VisitCommand, TrueOf, Plain, AllPlain;
    if c.host.Some? != c.hostsFile.Some? && SetUp(c, 1).Visited? {
      var n1 := SetUp(c, 1).next;
      if VisitLocal(c.pre, n1).Rejected? {
        LocalErrorIsTrue(c.pre, n1);
      } else if c.command.Some? {
        var n2 := VisitLocal(c.pre, n1).next;
        if VisitCommand(c.command.value, n2).Rejected? {
          CommandErrorIsTrue(c.command.value, n2);
          OfACommand(VisitCommand(c.command.value, n2).error, c.command.value);
        } else {
          var (t, n3) := VisitCommand(c.command.value, n2).Extract();
          var targets := VisitTargets(c, c.command.value, t, n3);
          if targets.Visited? {
            LocalErrorIsTrue(c.post, targets.next);
          } else if c.host.None? && c.hostsFile.value.Readable? {
            HostsErrorIsTrue(c, c.command.value, t, c.hostsFile.value.hosts, n3 + 1);
          }
        }
      }
    }
  }

  lemma OfACommand(e: VisitError, cmd: Command)
    requires TrueOf(e, cmd)
    ensures e.BadTimeout? || e.CommandAndCommands? || e.NoCommand? || e.UnknownFlow?
  {
  }

  lemma LocalErrorIsTrue(cmd: Option<Command>, n: nat)
    requires VisitLocal(cmd, n).Rejected?
    ensures cmd.Some? && TrueOf(VisitLocal(cmd, n).error, Localized(cmd.value))
    ensures var e := VisitLocal(cmd, n).error;
            e.BadTimeout? || e.CommandAndCommands? || e.NoCommand? || e.UnknownFlow?
  {
    hide TrueOf;
    CommandErrorIsTrue(Localized(cmd.value), n);
    OfACommand(VisitLocal(cmd, n).error, Localized(cmd.value));
  }
}
