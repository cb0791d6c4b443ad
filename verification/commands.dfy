/**
 * The `/parse` command and the run button: splitting the command's arguments
 * into group names (commas and whitespace separate them), the ceiling of
 * `MAX_GROUPS_PER_RUN` groups, the button data `start:<groups joined by ','>`
 * and its decoding in `button_callback`.
 */
module Commands {
  import opened Wrappers
  import opened Text
  import opened Criteria

  /** `MAX_GROUPS_PER_RUN`. */
  const MaxGroupsPerRun := 10

  /** The prefix of the run button's data. */
  const StartPrefix := "start:"

  /** `[g.strip() for g in ws if g.strip()]`: no more pieces, each non-empty and trimmed at both ends. */
  function StripNonEmpty(ws: seq<string>): (r: seq<string>)
    ensures |r| <= |ws|
    ensures forall i :: 0 <= i < |r| ==> TrimmedWord(r[i])
  {
    if ws == [] then []
    else
      var rest := StripNonEmpty(ws[1..]);
      var head := if Strip(ws[0]) != "" then [Strip(ws[0])] else [];
      TrimmedCons(head, rest);
      head + rest
  }

  /** A non-empty string that neither starts nor ends with whitespace. */
  predicate TrimmedWord(w: string) {
    w != "" && !IsSpace(w[0]) && !IsSpace(w[|w| - 1])
  }

  lemma TrimmedCons(head: seq<string>, rest: seq<string>)
    requires forall i :: 0 <= i < |head| ==> TrimmedWord(head[i])
    requires forall i :: 0 <= i < |rest| ==> TrimmedWord(rest[i])
    ensures forall i :: 0 <= i < |head + rest| ==> TrimmedWord((head + rest)[i])
  {
    forall i | 0 <= i < |head + rest| ensures TrimmedWord((head + rest)[i]) {
      if i >= |head| {
        assert (head + rest)[i] == rest[i - |head|];
      }
    }
  }

  /** On words (non-empty, no whitespace) the comprehension's strip and filter change nothing. */
  lemma {:induction false} StripNonEmptyOfWords(ws: seq<string>)
    requires forall i :: 0 <= i < |ws| ==> ws[i] != "" && NoSpace(ws[i])
    ensures StripNonEmpty(ws) == ws
  {
    if ws != [] {
      StripNonEmptyOfWords(ws[1..]);
      assert [ws[0]] + ws[1..] == ws;
    }
  }

  /**
   * The text the command's arguments are split from: `' '.join(args).replace(',', ' ')`,
   * the space-joined arguments with every comma turned into a blank.
   */
  function GroupsText(args: seq<string>): (r: string)
    ensures ',' !in r
    ensures |r| == |JoinWith(args, ' ')|
    ensures forall i :: 0 <= i < |r| ==> r[i] == (if JoinWith(args, ' ')[i] == ',' then ' ' else JoinWith(args, ' ')[i])
  {
    Replace(JoinWith(args, ' '), ',', ' ')
  }

  /** The group names `parse_command` reads from its arguments: non-empty, without commas or whitespace. */
  function CommandGroups(args: seq<string>): (groups: seq<string>)
    ensures forall i :: 0 <= i < |groups| ==> groups[i] != "" && NoSpace(groups[i]) && ',' !in groups[i]
  {
    var text := GroupsText(args);
    var ws := Words(text);
    StripNonEmptyOfWords(ws);
    WordsOmit(text, ',');
    StripNonEmpty(ws)
  }

  /** A separator that occurs in no piece of a join other than the separator itself does not occur in the join. */
  lemma {:induction false} JoinOmits(xs: seq<string>, c: char)
    requires c != ' '
    requires forall i :: 0 <= i < |xs| ==> c !in xs[i]
    ensures c !in JoinWith(xs, ' ')
  {
    if |xs| > 1 {
      JoinOmits(xs[1..], c);
      assert JoinWith(xs, ' ') == xs[0] + [' '] + JoinWith(xs[1..], ' ');
    }
  }

  /** Replacing a character that does not occur changes nothing. */
  lemma ReplaceAbsent(s: string, from: char, to: char)
    requires from !in s
    ensures Replace(s, from, to) == s
  {
  }

  /** Arguments that are already group names (non-empty, no comma, no whitespace) are read back one for one. */
  lemma CommandGroupsOfNames(args: seq<string>)
    requires forall i :: 0 <= i < |args| ==> args[i] != "" && NoSpace(args[i]) && ',' !in args[i]
    ensures CommandGroups(args) == args
  {
    JoinOmits(args, ',');
    ReplaceAbsent(JoinWith(args, ' '), ',', ' ');
    WordsOfJoin(args);
    StripNonEmptyOfWords(args);
  }

  /** One argument listing names separated by commas (`/parse @a,@b`) is read back as those names. */
  lemma CommandGroupsOfCommaList(names: seq<string>)
    requires |names| >= 1
    requires forall i :: 0 <= i < |names| ==> names[i] != "" && NoSpace(names[i]) && ',' !in names[i]
    ensures CommandGroups([JoinWith(names, ',')]) == names
  {
    assert JoinWith([JoinWith(names, ',')], ' ') == JoinWith(names, ',');
    ReplaceJoin(names, ',', ' ');
    WordsOfJoin(names);
    StripNonEmptyOfWords(names);
  }

  /** Splitting drops only the commas and whitespace: the group names concatenated are the rest of the text. */
  lemma CommandGroupsKeepText(args: seq<string>)
    ensures Concat(CommandGroups(args)) == Visible(GroupsText(args))
  {
    StripNonEmptyOfWords(Words(GroupsText(args)));
    WordsKeepText(GroupsText(args));
  }

  /** The outcome of `/parse` before any criteria are looked up. */
  datatype Command = MissingGroup | TooManyGroups | Confirm(groups: seq<string>)

  /**
   * `parse_command`'s checks as written: no arguments, then more than ten groups.
   * Arguments that name no group at all are confirmed with the empty list.
   */
  function ClassifyAsWritten(args: seq<string>): (r: Command)
    ensures r == MissingGroup <==> args == []
    ensures r == TooManyGroups <==> args != [] && |CommandGroups(args)| > MaxGroupsPerRun
    ensures r.Confirm? ==> |r.groups| <= MaxGroupsPerRun && r.groups == CommandGroups(args)
  {
    if args == [] then MissingGroup
    else
      var groups := CommandGroups(args);
      if |groups| > MaxGroupsPerRun then TooManyGroups else Confirm(groups)
  }

  /**
   * `parse_command`'s checks with an empty group list treated like missing arguments:
   * a confirmed list holds one to ten well-formed group names.
   */
  function Classify(args: seq<string>): (r: Command)
    ensures r.Confirm? ==> 1 <= |r.groups| <= MaxGroupsPerRun
    ensures r.Confirm? ==> forall i :: 0 <= i < |r.groups| ==> r.groups[i] != "" && NoSpace(r.groups[i]) && ',' !in r.groups[i]
    ensures r == TooManyGroups <==> args != [] && |CommandGroups(args)| > MaxGroupsPerRun
    ensures r.Confirm? ==> r.groups == CommandGroups(args)
  {
    if args == [] then MissingGroup
    else
      var groups := CommandGroups(args);
      if groups == [] then MissingGroup
      else if |groups| > MaxGroupsPerRun then TooManyGroups
      else Confirm(groups)
  }

  /** The two checks agree except on arguments naming no group, which only the corrected one refuses. */
  lemma ClassifyAgreement(args: seq<string>)
    ensures args == [] || CommandGroups(args) != [] ==> Classify(args) == ClassifyAsWritten(args)
    ensures args != [] && CommandGroups(args) == [] ==> ClassifyAsWritten(args) == Confirm([]) && Classify(args) == MissingGroup
  {
  }

  /**
   * The run button's data: `f"start:{','.join(groups)}"`. It starts with `start:`
   * and what follows its first colon is the joined list.
   */
  function StartData(groups: seq<string>): (r: string)
    ensures StartsWith(r, StartPrefix)
    ensures AfterFirst(r, ':') == Some(JoinWith(groups, ','))
  {
    var r := StartPrefix + JoinWith(groups, ',');
    assert r[..|StartPrefix|] == StartPrefix;
    assert ':' !in StartPrefix[..5];
    AfterFirstOfPrefix(StartPrefix, JoinWith(groups, ','), ':');
    r
  }

  /**
   * `[g.strip() for g in xs]`: one piece per piece, each the slice of its piece with
   * only whitespace cut from both ends; pieces without whitespace are kept as they are.
   */
  function StripAll(xs: seq<string>): (r: seq<string>)
    ensures |r| == |xs|
    ensures forall i :: 0 <= i < |xs| ==> TrimOf(r[i], xs[i])
    ensures forall i :: 0 <= i < |xs| ==> NoOuterSpace(r[i])
    ensures forall i :: 0 <= i < |xs| ==> NoSpace(xs[i]) ==> r[i] == xs[i]
    ensures (forall i :: 0 <= i < |xs| ==> NoSpace(xs[i])) ==> r == xs
  {
    seq(|xs|, i requires 0 <= i < |xs| => Strip(xs[i]))
  }

  /** What a button press asks for. */
  datatype Action = StartRun(groups: seq<string>) | AdjustMaxPressed | ToggleBotsPressed | NoAction

  /**
   * `button_callback`'s reading of the button data: `start:` data is a run of at
   * least one group, two fixed strings are the settings buttons, anything else is
   * ignored.
   */
  function DecodeCallback(data: string): (r: Action)
    ensures r.StartRun? <==> StartsWith(data, StartPrefix)
    ensures r.StartRun? ==> |r.groups| >= 1
    ensures r == AdjustMaxPressed <==> data == "adjust_max"
    ensures r == ToggleBotsPressed <==> data == "toggle_bots"
  {
    if StartsWith(data, StartPrefix) then
      assert data[5] == ':';
      var rest := AfterFirst(data, ':').value;
      StartRun(StripAll(SplitOn(rest, ',')))
    else if data == "adjust_max" then AdjustMaxPressed
    else if data == "toggle_bots" then ToggleBotsPressed
    else NoAction
  }

  /** Data with the `start:` prefix is a run of the stripped pieces behind the first colon. */
  lemma DecodeStart(data: string)
    requires StartsWith(data, StartPrefix)
    ensures ':' in data
    ensures DecodeCallback(data) == StartRun(StripAll(SplitOn(AfterFirst(data, ':').value, ',')))
  {
    assert data[5] == ':';
  }

  /** Decoding the run button's data gives back a non-empty list of comma- and whitespace-free names. */
  lemma StartDataRoundTrip(groups: seq<string>)
    requires |groups| >= 1
    requires forall i :: 0 <= i < |groups| ==> ',' !in groups[i] && NoSpace(groups[i])
    ensures DecodeCallback(StartData(groups)) == StartRun(groups)
  {
    DecodeStart(StartData(groups));
    SplitJoin(groups, ',');
    assert StripAll(groups) == groups;
  }

  /** Every group list the corrected check (`Classify`) confirms reaches `start_parsing` unchanged through the run button. */
  lemma CommandRoundTrip(args: seq<string>)
    requires Classify(args).Confirm?
    ensures DecodeCallback(StartData(Classify(args).groups)) == StartRun(Classify(args).groups)
  {
    StartDataRoundTrip(Classify(args).groups);
  }

  /** As written, every confirmed list that names at least one group survives the run button unchanged. */
  lemma CommandRoundTripAsWritten(args: seq<string>)
    requires ClassifyAsWritten(args).Confirm? && ClassifyAsWritten(args).groups != []
    ensures DecodeCallback(StartData(ClassifyAsWritten(args).groups)) == StartRun(ClassifyAsWritten(args).groups)
  {
    ClassifyAgreement(args);
    CommandRoundTrip(args);
  }

  /** `/parse ,` names no group at all. */
  lemma CommaOnlyNamesNoGroup()
    ensures CommandGroups([","]) == []
  {
    assert JoinWith([","], ' ') == ",";
    assert Replace(",", ',', ' ') == " ";
    assert IsSpace(' ');
    assert SkipSpace(" ", 0) == 1;
  }

  /** The run button data of an empty group list decodes to the single group `""`. */
  lemma EmptyStartDataDecodes()
    ensures DecodeCallback(StartData([])) == StartRun([""])
  {
    DecodeStart(StartData([]));
    assert JoinWith([], ',') == "";
    assert SplitOn("", ',') == [""];
    assert NoSpace("");
  }

  /**
   * As written, `/parse ,` is accepted with no groups, and its run button data
   * `"start:"` decodes to the one group `""`: the round trip fails for the empty list.
   * With the empty list rejected, `/parse ,` gets the missing-group reply instead.
   */
  lemma EmptyGroupListNotRoundTripped()
    ensures ClassifyAsWritten([","]) == Confirm([])
    ensures DecodeCallback(StartData([])) == StartRun([""])
    ensures Classify([","]) == MissingGroup
  {
    CommaOnlyNamesNoGroup();
    EmptyStartDataDecodes();
  }

  /** The reply of `/parse`. */
  datatype CommandReply =
    | AskForGroup
    | TooManyGroupsReply
    | Settings(criteria: Criteria, groups: seq<string>, startData: string)

  /**
   * `parse_command` as written: rejects missing arguments and a list over the ceiling
   * before the user's criteria are looked up; otherwise looks them up (creating the
   * defaults for a new user) and offers the run button, even for arguments that name
   * no group.
   */
  method ParseCommand(store: CriteriaStore, user: int, args: seq<string>) returns (reply: CommandReply)
    modifies store
    ensures !ClassifyAsWritten(args).Confirm? ==> store.userData == old(store.userData)
    ensures ClassifyAsWritten(args) == MissingGroup ==> reply == AskForGroup
    ensures ClassifyAsWritten(args) == TooManyGroups ==> reply == TooManyGroupsReply
    ensures ClassifyAsWritten(args).Confirm? ==>
      && store.userData == Touch(old(store.userData), user)
      && reply == Settings(store.userData[user], CommandGroups(args), StartData(CommandGroups(args)))
  {
    if args == [] {
      return AskForGroup;
    }
    var groups := CommandGroups(args);
    if |groups| > MaxGroupsPerRun {
      return TooManyGroupsReply;
    }
    var criteria := store.GetUserCriteria(user);
    reply := Settings(criteria, groups, StartData(groups));
  }

  /**
   * `parse_command` with an empty group list refused like missing arguments: every
   * list it offers holds one to ten well-formed names, and the store is touched only then.
   */
  method ParseCommandRejectingEmpty(store: CriteriaStore, user: int, args: seq<string>) returns (reply: CommandReply)
    modifies store
    ensures !Classify(args).Confirm? ==> store.userData == old(store.userData)
    ensures Classify(args) == MissingGroup ==> reply == AskForGroup
    ensures Classify(args) == TooManyGroups ==> reply == TooManyGroupsReply
    ensures Classify(args).Confirm? ==>
      && store.userData == Touch(old(store.userData), user)
      && reply == Settings(store.userData[user], Classify(args).groups, StartData(Classify(args).groups))
  {
    if args == [] {
      return AskForGroup;
    }
    var groups := CommandGroups(args);
    if groups == [] {
      return AskForGroup;
    }
    if |groups| > MaxGroupsPerRun {
      return TooManyGroupsReply;
    }
    var criteria := store.GetUserCriteria(user);
    reply := Settings(criteria, groups, StartData(groups));
  }
}
