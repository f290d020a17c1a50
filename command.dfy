/**
 * The message entry point of src/command.ts (`onMessage`): which messages are
 * looked at, how the text is normalised and cut, and how a command and then a
 * sub-command are chosen by exact or unique-prefix match. The handlers
 * themselves are named, not modelled.
 */
module Command {
  import opened Optional
  import opened Util

  /** The handler functions of the command table. */
  datatype Handler =
    | PlayPause | Play | Pause | Skip | Queue | Remove
    | Playlist | PlaylistSave | PlaylistLoad | PlaylistDelete
    | Latency | About | Help

  datatype SubCommand = SubCommand(name: string, handler: Handler)

  /** A table entry; an entry without sub-commands has an empty sequence. */
  datatype Command = Command(name: string, handler: Handler, subCommands: seq<SubCommand>)

  /** The `commands` table, in its order. */
  const CommandTable: seq<Command> := [
    Command("p", PlayPause, []),
    Command("play", Play, []),
    Command("pause", Pause, []),
    Command("skip", Skip, []),
    Command("queue", Queue, []),
    Command("remove", Remove, []),
    Command("playlist", Playlist, [
      SubCommand("save", PlaylistSave),
      SubCommand("load", PlaylistLoad),
      SubCommand("delete", PlaylistDelete)]),
    Command("latency", Latency, []),
    Command("about", About, []),
    Command("help", Help, [])
  ]

  /** The parts of a chat message `onMessage` looks at. */
  datatype Message = Message(content: string, authorIsBot: bool, channelId: string)

  /** What `onMessage` does with a message. */
  datatype Outcome =
    | Ignored                                   // not addressed to the bot
    | UnknownCommand(suggestions: seq<string>)  // error reply; lists the candidates, if any
    | Invoke(handler: Handler, parameter: string)

  /** A character matched by the regular-expression class `\s`. */
  predicate IsWhitespace(c: char)
  {
    c == ' ' || c == '\t' || c == '\n' || c == '\r' || c as int == 0x0B || c as int == 0x0C
    || c as int == 0xA0 || c as int == 0x1680 || (0x2000 <= c as int <= 0x200A)
    || c as int == 0x2028 || c as int == 0x2029 || c as int == 0x202F || c as int == 0x205F
    || c as int == 0x3000 || c as int == 0xFEFF
  }

  /** The text without any whitespace: what a whitespace rewrite must preserve. */
  function StripWhitespace(s: string): string
  {
    if |s| == 0 then "" else (if IsWhitespace(s[0]) then "" else [s[0]]) + StripWhitespace(s[1..])
  }

  /** Whitespace only as single plain spaces. */
  predicate Normalised(s: string)
  {
    && (forall i :: 0 <= i < |s| && IsWhitespace(s[i]) ==> s[i] == ' ')
    && (forall i :: 0 <= i < |s| - 1 ==> !(s[i] == ' ' && s[i + 1] == ' '))
  }

  /** Drops the whitespace a text starts with. */
  function SkipWhitespace(s: string): (r: string)
    ensures |r| <= |s| && StripWhitespace(r) == StripWhitespace(s)
    ensures |r| > 0 ==> !IsWhitespace(r[0])
  {
    if |s| > 0 && IsWhitespace(s[0]) then SkipWhitespace(s[1..]) else s
  }

  /** Putting one character in front of a text, for the two facts the collapse keeps. */
  lemma ConsFacts(c: char, r: string)
    requires Normalised(r)
    requires IsWhitespace(c) ==> c == ' '
    requires c == ' ' && |r| > 0 ==> r[0] != ' '
    ensures Normalised([c] + r)
    ensures StripWhitespace([c] + r) == (if IsWhitespace(c) then "" else [c]) + StripWhitespace(r)
  {
    var t := [c] + r;
    assert t[1..] == r;
    forall i | 0 <= i < |t| && IsWhitespace(t[i]) ensures t[i] == ' ' {
      if i > 0 { assert t[i] == r[i - 1]; }
    }
    forall i | 0 <= i < |t| - 1 ensures !(t[i] == ' ' && t[i + 1] == ' ') {
      if i > 0 { assert t[i] == r[i - 1] && t[i + 1] == r[i]; }
    }
  }

  /** `content.replace(/\s+/g, ' ')`: every run of whitespace becomes one space. */
  function CollapseWhitespace(s: string): (r: string)
    ensures Normalised(r)
    ensures StripWhitespace(r) == StripWhitespace(s)
    ensures |r| > 0 <==> |s| > 0
    ensures |s| > 0 ==> r[0] == (if IsWhitespace(s[0]) then ' ' else s[0])
    decreases |s|
  {
    if |s| == 0 then ""
    else if IsWhitespace(s[0]) then
      var t := SkipWhitespace(s[1..]);
      var rest := CollapseWhitespace(t);
      ConsFacts(' ', rest);
      assert StripWhitespace(s) == StripWhitespace(s[1..]);
      [' '] + rest
    else
      var rest := CollapseWhitespace(s[1..]);
      ConsFacts(s[0], rest);
      [s[0]] + rest
  }

  /** A text already normalised is left as it is, so collapsing twice is collapsing once. */
  lemma {:induction false} CollapseKeepsNormalised(s: string)
    requires Normalised(s)
    ensures CollapseWhitespace(s) == s
    decreases |s|
  {
    if |s| > 0 {
      var t := s[1..];
      assert Normalised(t) by {
        forall i | 0 <= i < |t| - 1 ensures !(t[i] == ' ' && t[i + 1] == ' ') {
          assert t[i] == s[i + 1] && t[i + 1] == s[i + 2];
        }
        forall i | 0 <= i < |t| && IsWhitespace(t[i]) ensures t[i] == ' ' {
          assert t[i] == s[i + 1];
        }
      }
      CollapseKeepsNormalised(t);
      if IsWhitespace(s[0]) {
        assert s[0] == ' ';
        assert SkipWhitespace(t) == t by {
          if |t| > 0 {
            assert !(s[0] == ' ' && s[1] == ' ');
            assert !IsWhitespace(t[0]);
          }
        }
      }
      assert s == [s[0]] + t;
    }
  }

  lemma CollapseIdempotent(s: string)
    ensures CollapseWhitespace(CollapseWhitespace(s)) == CollapseWhitespace(s)
  {
    CollapseKeepsNormalised(CollapseWhitespace(s));
  }

  /** Whitespace only. */
  predicate AllWhitespace(w: string)
  {
    forall i :: 0 <= i < |w| ==> IsWhitespace(w[i])
  }

  /** Skipping a whitespace run stops at the first character after it. */
  lemma {:induction false} SkipRun(w: string, v: string)
    requires AllWhitespace(w)
    requires |v| == 0 || !IsWhitespace(v[0])
    ensures SkipWhitespace(w + v) == v
    decreases |w|
  {
    if |w| == 0 {
      assert w + v == v;
    } else {
      assert (w + v)[1..] == w[1..] + v;
      SkipRun(w[1..], v);
    }
  }

  /** Skipping leading whitespace of a text that ends in a word never reaches what follows it. */
  lemma {:induction false} SkipBeforeWord(a: string, b: string)
    requires |a| > 0 && !IsWhitespace(a[|a| - 1])
    ensures SkipWhitespace(a + b) == SkipWhitespace(a) + b
    ensures |SkipWhitespace(a)| > 0 && |SkipWhitespace(a)| <= |a|
    ensures SkipWhitespace(a)[|SkipWhitespace(a)| - 1] == a[|a| - 1]
    decreases |a|
  {
    if IsWhitespace(a[0]) {
      assert |a| > 1;
      assert (a + b)[1..] == a[1..] + b;
      SkipBeforeWord(a[1..], b);
    }
  }

  /** The collapse of a text that starts with whitespace: one space, then the rest after the run. */
  lemma CollapseAtSpace(s: string)
    requires |s| > 0 && IsWhitespace(s[0])
    ensures CollapseWhitespace(s) == " " + CollapseWhitespace(SkipWhitespace(s[1..]))
  {
  }

  /** The collapse of a text that starts with a word character: that character, then the rest. */
  lemma CollapseAtWord(s: string)
    requires |s| > 0 && !IsWhitespace(s[0])
    ensures CollapseWhitespace(s) == [s[0]] + CollapseWhitespace(s[1..])
  {
  }

  /**
   * A whitespace run between two words becomes exactly one space: it neither
   * vanishes nor stays longer, and the text on either side is collapsed on its own.
   */
  lemma {:induction false} CollapseRun(u: string, w: string, v: string)
    requires |u| == 0 || !IsWhitespace(u[|u| - 1])
    requires |w| > 0 && AllWhitespace(w)
    requires |v| == 0 || !IsWhitespace(v[0])
    ensures CollapseWhitespace(u + w + v) == CollapseWhitespace(u) + " " + CollapseWhitespace(v)
    decreases |u|
  {
    if |u| == 0 {
      CollapseRunEmpty(w, v);
      assert u + w + v == w + v;
    } else if IsWhitespace(u[0]) {
      var u' := SkipWhitespace(u[1..]);
      SkipBeforeWord(u[1..], w + v);
      CollapseRun(u', w, v);
      CollapseRunSpace(u, w, v);
    } else {
      CollapseRun(u[1..], w, v);
      CollapseRunWord(u, w, v);
    }
  }

  /** The run at the very start: one space, then the collapse of the rest. */
  lemma CollapseRunEmpty(w: string, v: string)
    requires |w| > 0 && AllWhitespace(w)
    requires |v| == 0 || !IsWhitespace(v[0])
    ensures CollapseWhitespace(w + v) == " " + CollapseWhitespace(v)
  {
    HeadTailOfPair(w, v);
    assert SkipWhitespace((w + v)[1..]) == v by {
      SkipRun(w[1..], v);
    }
    CollapseAtSpace(w + v);
  }

  /** The induction step when the text before the run starts with whitespace. */
  lemma CollapseRunSpace(u: string, w: string, v: string)
    requires |u| > 0 && IsWhitespace(u[0])
    requires SkipWhitespace(u[1..] + (w + v)) == SkipWhitespace(u[1..]) + (w + v)
    requires CollapseWhitespace(SkipWhitespace(u[1..]) + w + v)
      == CollapseWhitespace(SkipWhitespace(u[1..])) + " " + CollapseWhitespace(v)
    ensures CollapseWhitespace(u + w + v) == CollapseWhitespace(u) + " " + CollapseWhitespace(v)
  {
    var u' := SkipWhitespace(u[1..]);
    assert CollapseWhitespace(u + w + v) == " " + CollapseWhitespace(u' + w + v) by {
      HeadTail(u, w, v);
      Associate(u[1..], w, v);
      Associate(u', w, v);
      CollapseAtSpace(u + w + v);
    }
    assert CollapseWhitespace(u) == " " + CollapseWhitespace(u') by {
      CollapseAtSpace(u);
    }
    Glue(" ", CollapseWhitespace(u' + w + v), CollapseWhitespace(u'), CollapseWhitespace(v),
         CollapseWhitespace(u + w + v), CollapseWhitespace(u));
  }

  /** The induction step when the text before the run starts with a word character. */
  lemma CollapseRunWord(u: string, w: string, v: string)
    requires |u| > 0 && !IsWhitespace(u[0])
    requires CollapseWhitespace(u[1..] + w + v) == CollapseWhitespace(u[1..]) + " " + CollapseWhitespace(v)
    ensures CollapseWhitespace(u + w + v) == CollapseWhitespace(u) + " " + CollapseWhitespace(v)
  {
    assert CollapseWhitespace(u + w + v) == [u[0]] + CollapseWhitespace(u[1..] + w + v) by {
      HeadTail(u, w, v);
      CollapseAtWord(u + w + v);
    }
    assert CollapseWhitespace(u) == [u[0]] + CollapseWhitespace(u[1..]) by {
      CollapseAtWord(u);
    }
    Glue([u[0]], CollapseWhitespace(u[1..] + w + v), CollapseWhitespace(u[1..]), CollapseWhitespace(v),
         CollapseWhitespace(u + w + v), CollapseWhitespace(u));
  }

  /** The first element and the tail of a concatenation that starts with a non-empty part. */
  lemma HeadTail<T>(a: seq<T>, b: seq<T>, c: seq<T>)
    requires |a| > 0
    ensures (a + b + c)[0] == a[0] && (a + b + c)[1..] == a[1..] + b + c
  {
  }

  lemma HeadTailOfPair<T>(a: seq<T>, b: seq<T>)
    requires |a| > 0
    ensures (a + b)[0] == a[0] && (a + b)[1..] == a[1..] + b
  {
  }

  lemma Associate<T>(a: seq<T>, b: seq<T>, c: seq<T>)
    ensures a + (b + c) == a + b + c
  {
  }

  /** Putting the separator back between the two collapsed halves. */
  lemma Glue(x: string, tail: string, a: string, c: string, whole: string, part: string)
    requires whole == x + tail && tail == a + " " + c && part == x + a
    ensures whole == part + " " + c
  {
  }

  /** `toLowerCase` on the ASCII letters; every other character is kept. */
  function ToLower(s: string): (r: string)
    ensures |r| == |s|
    ensures forall i :: 0 <= i < |r| ==> !('A' <= r[i] <= 'Z')
    ensures forall i :: 0 <= i < |s| && !('A' <= s[i] <= 'Z') ==> r[i] == s[i]
  {
    seq(|s|, i requires 0 <= i < |s| => if 'A' <= s[i] <= 'Z' then (s[i] as int + 32) as char else s[i])
  }

  /** Two characters that are equal once ASCII capitals are folded to small letters. */
  predicate SameUpToCase(c: char, d: char)
  {
    c == d || ('A' <= c <= 'Z' && c as int + 32 == d as int) || ('A' <= d <= 'Z' && d as int + 32 == c as int)
  }

  /**
   * A message token lower-cases to a command name (which has no capitals)
   * exactly when it spells that name up to ASCII case.
   */
  lemma ToLowerMatchesName(t: string, n: string)
    requires forall i :: 0 <= i < |n| ==> !('A' <= n[i] <= 'Z')
    ensures ToLower(t) == n <==> |t| == |n| && forall i :: 0 <= i < |t| ==> SameUpToCase(t[i], n[i])
  {
  }

  predicate StartsWith(s: string, prefix: string)
  {
    |prefix| <= |s| && s[..|prefix|] == prefix
  }

  /** The first position at or after `from` whose name is exactly `token`. */
  function FirstExact(names: seq<string>, token: string, from: nat): (r: Option<nat>)
    requires from <= |names|
    ensures r.Some? ==> from <= r.value < |names| && names[r.value] == token
    ensures r.Some? ==> forall j :: from <= j < r.value ==> names[j] != token
    ensures r.None? ==> forall j :: from <= j < |names| ==> names[j] != token
    decreases |names| - from
  {
    if from == |names| then None
    else if names[from] == token then Some(from)
    else FirstExact(names, token, from + 1)
  }

  /** The positions below `n` whose name starts with `token`, in increasing order. */
  function PrefixMatches(names: seq<string>, token: string, n: nat): (r: seq<nat>)
    requires n <= |names|
    ensures forall i :: 0 <= i < |r| ==> r[i] < n && StartsWith(names[r[i]], token)
    ensures forall k :: 0 <= k < n && StartsWith(names[k], token) ==> k in r
    ensures forall i, j :: 0 <= i < j < |r| ==> r[i] < r[j]
  {
    if n == 0 then []
    else PrefixMatches(names, token, n - 1) + (if StartsWith(names[n - 1], token) then [n - 1] else [])
  }

  /**
   * The candidates a token selects: the first entry named exactly like it, and
   * otherwise every entry whose name starts with it.
   */
  function Candidates(names: seq<string>, token: string): (r: seq<nat>)
    ensures forall i :: 0 <= i < |r| ==> r[i] < |names| && StartsWith(names[r[i]], token)
  {
    match FirstExact(names, token, 0)
    case Some(k) => [k]
    case None => PrefixMatches(names, token, |names|)
  }

  /**
   * The matching loop of `onMessage`: pushes every prefix match, until an exact
   * match replaces what was collected and stops the scan.
   */
  method MatchNames(names: seq<string>, token: string) returns (matched: seq<nat>)
    ensures matched == Candidates(names, token)
  {
    matched := [];
    var i := 0;
    while i < |names|
      invariant 0 <= i <= |names|
      invariant forall j :: 0 <= j < i ==> names[j] != token
      invariant matched == PrefixMatches(names, token, i)
    {
      if names[i] == token {
        matched := [i];
        assert FirstExact(names, token, 0) == Some(i);
        return;
      } else if StartsWith(names[i], token) {
        matched := matched + [i];
      }
      i := i + 1;
    }
  }

  /** An exact name wins over every prefix match, before or after it in the table. */
  lemma ExactMatchSelectsOne(names: seq<string>, token: string, k: nat)
    requires k < |names| && names[k] == token
    requires forall j :: 0 <= j < k ==> names[j] != token
    ensures Candidates(names, token) == [k]
  {
    var r := FirstExact(names, token, 0);
    assert r.Some? && r.value == k;
  }

  /** With no exact name, the candidates are all prefix matches, each once, in table order. */
  lemma NoExactMatchKeepsPrefixMatches(names: seq<string>, token: string)
    requires forall j :: 0 <= j < |names| ==> names[j] != token
    ensures var r := Candidates(names, token);
      && (forall i :: 0 <= i < |r| ==> StartsWith(names[r[i]], token))
      && (forall k :: 0 <= k < |names| && StartsWith(names[k], token) ==> k in r)
      && (forall i, j :: 0 <= i < j < |r| ==> r[i] < r[j])
  {
    assert FirstExact(names, token, 0).None?;
  }

  function CommandNames(table: seq<Command>): (r: seq<string>)
    ensures |r| == |table| && forall i :: 0 <= i < |table| ==> r[i] == table[i].name
  {
    seq(|table|, i requires 0 <= i < |table| => table[i].name)
  }

  function SubCommandNames(subs: seq<SubCommand>): (r: seq<string>)
    ensures |r| == |subs| && forall i :: 0 <= i < |subs| ==> r[i] == subs[i].name
  {
    seq(|subs|, i requires 0 <= i < |subs| => subs[i].name)
  }

  /** `charAt(0)`: the first character as a text, or the empty text. */
  function CharAt0(s: string): (r: string)
    ensures |r| == if |s| == 0 then 0 else 1
    ensures |s| > 0 ==> r[0] == s[0]
  {
    if |s| == 0 then "" else [s[0]]
  }

  /** The guard of `onMessage`: starts with the prefix, not from a bot, in an allowed channel. */
  predicate Accepts(msg: Message, prefix: string, channels: seq<string>)
  {
    CharAt0(msg.content) == prefix && !msg.authorIsBot && msg.channelId in channels
  }

  /** `substring(1)`. */
  function DropFirst(s: string): string
  {
    if |s| == 0 then s else s[1..]
  }

  /** The command line the matcher cuts: whitespace runs collapsed, prefix character dropped. */
  function CommandLine(content: string): string
  {
    DropFirst(CollapseWhitespace(content))
  }

  /** The names of the candidates a reply lists. */
  function CandidateNames(table: seq<Command>, found: seq<nat>): (r: seq<string>)
    requires forall i :: 0 <= i < |found| ==> found[i] < |table|
    ensures |r| == |found| && forall i :: 0 <= i < |found| ==> r[i] == table[found[i]].name
  {
    seq(|found|, i requires 0 <= i < |found| => table[found[i]].name)
  }

  /** The second step, for an entry that has sub-commands: `rest` is the text after its token. */
  function DispatchSubCommand(command: Command, rest: string): Outcome
  {
    var cut := SplitAfterFirstSpace(rest);
    var found := Candidates(SubCommandNames(command.subCommands), ToLower(cut.beforeSpace));
    if |found| == 1 then Invoke(command.subCommands[found[0]].handler, cut.afterSpace)
    else Invoke(command.handler, cut.beforeSpace)
  }

  /** The first step, on the command line: choose the entry, then its sub-command if it has any. */
  function DispatchCommand(table: seq<Command>, line: string): Outcome
  {
    var cut := SplitAfterFirstSpace(line);
    var found := Candidates(CommandNames(table), ToLower(cut.beforeSpace));
    if |found| != 1 then UnknownCommand(CandidateNames(table, found))
    else if |table[found[0]].subCommands| > 0 then DispatchSubCommand(table[found[0]], cut.afterSpace)
    else Invoke(table[found[0]].handler, cut.afterSpace)
  }

  /** What `onMessage` does, stated on the candidate functions. */
  function Dispatch(table: seq<Command>, msg: Message, prefix: string, channels: seq<string>): Outcome
  {
    if Accepts(msg, prefix, channels) then DispatchCommand(table, CommandLine(msg.content)) else Ignored
  }

  /** `onMessage`, with the two matching loops. */
  method OnMessage(table: seq<Command>, msg: Message, prefix: string, channels: seq<string>)
    returns (outcome: Outcome)
    ensures outcome == Dispatch(table, msg, prefix, channels)
  {
    if CharAt0(msg.content) != prefix || msg.authorIsBot || msg.channelId !in channels {
      return Ignored;
    }
    var trimmed := CollapseWhitespace(msg.content);
    var cut := SplitAfterFirstSpace(DropFirst(trimmed));
    var matched := MatchNames(CommandNames(table), ToLower(cut.beforeSpace));
    if |matched| == 1 {
      var command := table[matched[0]];
      if |command.subCommands| > 0 {
        var cut2 := SplitAfterFirstSpace(cut.afterSpace);
        var subMatched := MatchNames(SubCommandNames(command.subCommands), ToLower(cut2.beforeSpace));
        if |subMatched| == 1 {
          outcome := Invoke(command.subCommands[subMatched[0]].handler, cut2.afterSpace);
        } else {
          outcome := Invoke(command.handler, cut2.beforeSpace);
        }
      } else {
        outcome := Invoke(command.handler, cut.afterSpace);
      }
    } else {
      outcome := UnknownCommand(CandidateNames(table, matched));
    }
  }

  /** A message is acted on exactly when it passes the guard. */
  lemma OnlyAcceptedMessagesAreHandled(table: seq<Command>, msg: Message, prefix: string, channels: seq<string>)
    ensures Dispatch(table, msg, prefix, channels) != Ignored <==> Accepts(msg, prefix, channels)
  {
    if Accepts(msg, prefix, channels) {
      NeverIgnoredOnceAccepted(table, CommandLine(msg.content));
    }
  }

  /** Matching a command line always ends in a handler call or the error reply. */
  lemma NeverIgnoredOnceAccepted(table: seq<Command>, line: string)
    ensures DispatchCommand(table, line) != Ignored
  {
  }

  /**
   * With a one-character prefix, an accepted message is a non-empty text that
   * starts with that character.
   */
  lemma AcceptedStartsWithPrefix(msg: Message, prefix: string, channels: seq<string>)
    requires |prefix| == 1 && Accepts(msg, prefix, channels)
    ensures |msg.content| > 0 && msg.content[0] == prefix[0]
  {
  }

  /**
   * A command runs only when its token selects exactly one entry; otherwise the
   * reply lists every candidate, by name, in table order.
   */
  lemma RunsOnlyOnUniqueCandidate(table: seq<Command>, line: string)
    ensures var found := Candidates(CommandNames(table), ToLower(SplitAfterFirstSpace(line).beforeSpace));
      && (DispatchCommand(table, line).Invoke? <==> |found| == 1)
      && (|found| != 1 ==> DispatchCommand(table, line) == UnknownCommand(CandidateNames(table, found)))
  {
  }

  /**
   * For an entry with sub-commands, a unique sub-command runs with the text after
   * its own token; any other second token is handed to the entry itself, alone.
   */
  lemma SubCommandRule(command: Command, rest: string)
    requires |command.subCommands| > 0
    ensures var cut := SplitAfterFirstSpace(rest);
      var found := Candidates(SubCommandNames(command.subCommands), ToLower(cut.beforeSpace));
      && (|found| == 1 ==> DispatchSubCommand(command, rest) == Invoke(command.subCommands[found[0]].handler, cut.afterSpace))
      && (|found| != 1 ==> DispatchSubCommand(command, rest) == Invoke(command.handler, cut.beforeSpace))
  {
  }

  /** The names of the real table, in order. */
  lemma CommandTableNames()
    ensures CommandNames(CommandTable)
      == ["p", "play", "pause", "skip", "queue", "remove", "playlist", "latency", "about", "help"]
  {
  }

  /** On the real table "p" is exact and beats play, pause and playlist; "play" is exact and beats playlist. */
  lemma CommandTableExactTokens()
    ensures Candidates(CommandNames(CommandTable), "p") == [0]
    ensures Candidates(CommandNames(CommandTable), "play") == [1]
  {
    CommandTableNames();
    ExactMatchSelectsOne(CommandNames(CommandTable), "play", 1);
  }

  /** Upper case is folded before matching: "PAUSE" reaches pause. */
  lemma CommandTableFoldsCase()
    ensures ToLower("PAUSE") == "pause"
    ensures Candidates(CommandNames(CommandTable), ToLower("PAUSE")) == [2]
  {
    CommandTableNames();
    ExactMatchSelectsOne(CommandNames(CommandTable), "pause", 2);
  }
}
