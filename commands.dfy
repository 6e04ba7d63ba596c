/** `CommandParser`: a natural-language command, once tokenized and stemmed,
    is classified by word lists into an action with its parameters; and the
    suggestions for a partly typed command. The word tokenizer and the
    stemmer are parameters. */
module Commands {
  import opened Wrappers
  import opened Text
  import opened Ledger

  datatype Action = SyncAction | StatusAction | ListAction | ConfigureAction | ErrorAction

  /** `entityType`: `'tasks'`, `'pending'` or `'errors'`. */
  datatype EntityType = AllTasks | PendingTasks | ErroredTasks

  /** `CommandResult.params`; `None` is a parameter that is absent or
      `undefined`. A direction is a sync direction of the ledger. */
  datatype Params = Params(direction: Option<Direction>, taskId: Option<string>,
                           entityType: Option<EntityType>, errorCode: Option<string>,
                           errorMessage: Option<string>)

  datatype CommandResult = CommandResult(action: Action, params: Params)

  const NoParams := Params(None, None, None, None, None)

  const SyncWords := ["sync", "sincroniz"]
  const StatusWords := ["status", "estado", "show", "mostrar"]
  const ListWords := ["list", "lista", "show", "listar"]
  const ConfigWords := ["config", "configur", "setup"]
  const NowWords := ["now", "ahora", "immediately", "inmediatamente"]
  const PendingWords := ["pending", "pendient"]
  const ErrorWords := ["error", "failed", "fallido"]
  const ToWords := ["to", "a", "hacia"]

  /** `containsWords`: some word of the list is one of the tokens. */
  function ContainsWords(tokens: seq<string>, words: seq<string>): (b: bool)
    ensures b <==> exists i :: 0 <= i < |words| && words[i] in tokens
  {
    if words == [] then false
    else if words[0] in tokens then true
    else
      var rest := ContainsWords(tokens, words[1..]);
      assert forall i :: 1 <= i < |words| ==> words[i] == words[1..][i - 1];
      rest
  }

  // ---------------------------------------------------------------------------
  // Ids

  predicate IsUpperLetter(c: char) { 'A' <= c <= 'Z' }
  predicate IsDigit(c: char) { '0' <= c <= '9' }
  predicate IsLowerHexDigit(c: char) { '0' <= c <= '9' || 'a' <= c <= 'f' }

  /** `^[A-Z]+-\d+$`: capitals, a dash, digits; capitals contain no dash, so
      the dash is the first one. */
  predicate IsTicketKey(t: string)
  {
    match IndexOfChar(t, '-')
    case None => false
    case Some(d) =>
      && 0 < d < |t| - 1
      && (forall i :: 0 <= i < d ==> IsUpperLetter(t[i]))
      && (forall i :: d < i < |t| ==> IsDigit(t[i]))
  }

  /** `^[a-f0-9]{24}$`: a document id. */
  predicate IsObjectId(t: string)
  {
    |t| == 24 && forall i :: 0 <= i < |t| ==> IsLowerHexDigit(t[i])
  }

  /** `idPattern.test(token)`. */
  predicate MatchesId(t: string)
  {
    IsTicketKey(t) || IsObjectId(t)
  }

  /** `extractId`: the first token the id pattern matches. */
  function ExtractId(tokens: seq<string>): (r: Option<string>)
    ensures r.Some? ==> exists i :: 0 <= i < |tokens| && tokens[i] == r.value &&
                          MatchesId(tokens[i]) && forall j :: 0 <= j < i ==> !MatchesId(tokens[j])
    ensures r.None? ==> forall j :: 0 <= j < |tokens| ==> !MatchesId(tokens[j])
  {
    if tokens == [] then None
    else if MatchesId(tokens[0]) then Some(tokens[0])
    else
      var rest := ExtractId(tokens[1..]);
      assert forall j :: 1 <= j < |tokens| ==> tokens[j] == tokens[1..][j - 1];
      rest
  }

  /** A string with no capital letter. */
  predicate NoCapitals(t: string)
  {
    forall i :: 0 <= i < |t| ==> !IsUpperLetter(t[i])
  }

  /** A lowered string has no capital letter. */
  lemma LoweredHasNoCapitals(s: string)
    ensures NoCapitals(Lower(s))
  {
    forall i | 0 <= i < |s| ensures !IsUpperLetter(Lower(s)[i]) {
      LowerAt(s, i);
    }
  }

  /** Every piece of a string without capitals is without capitals. */
  lemma PieceHasNoCapitals(s: string, t: string)
    requires NoCapitals(s) && Includes(s, t)
    ensures NoCapitals(t)
  {
    var k: nat :| OccursAt(s, t, k);
    forall i | 0 <= i < |t| ensures !IsUpperLetter(t[i]) {
      assert t[i] == s[k..k + |t|][i] == s[k + i];
    }
  }

  /** Among tokens without capitals, only document ids are found: the
      `[A-Z]+-\d+` alternative can never match. */
  lemma {:induction false} IdsWithoutCapitals(tokens: seq<string>)
    requires forall k :: 0 <= k < |tokens| ==> NoCapitals(tokens[k])
    ensures ExtractId(tokens).Some? ==> IsObjectId(ExtractId(tokens).value)
  {
    if tokens != [] {
      if tokens[0] != [] {
        assert !IsUpperLetter(tokens[0][0]);
      }
      if !MatchesId(tokens[0]) {
        IdsWithoutCapitals(tokens[1..]);
      }
    }
  }

  // ---------------------------------------------------------------------------
  // Direction

  /** `extractDirection`: with `jira`, `trello` and a `to` word among the
      tokens, the direction goes from the one named first; otherwise none. */
  function ExtractDirection(tokens: seq<string>): (r: Option<Direction>)
    ensures r.Some? <==> "jira" in tokens && "trello" in tokens && ("to" in tokens || "a" in tokens || "hacia" in tokens)
  {
    var hasJira := ContainsWords(tokens, ["jira"]);
    var hasTrello := ContainsWords(tokens, ["trello"]);
    var toPattern := ContainsWords(tokens, ToWords);
    assert ["jira"][0] == "jira" && ["trello"][0] == "trello";
    assert hasJira <==> "jira" in tokens;
    assert hasTrello <==> "trello" in tokens;
    assert toPattern <==> "to" in tokens || "a" in tokens || "hacia" in tokens by {
      assert ToWords[0] == "to" && ToWords[1] == "a" && ToWords[2] == "hacia";
    }
    if hasJira && hasTrello && toPattern then
      if IndexOf(tokens, "jira") < IndexOf(tokens, "trello") then Some(ToTrello) else Some(ToJira)
    else None
  }

  /** The direction is Jira to Trello exactly when some `jira` token comes
      before every `trello` token, and Trello to Jira exactly when a
      `trello` token comes first. */
  lemma DirectionByFirstMention(tokens: seq<string>)
    requires ExtractDirection(tokens).Some?
    ensures ExtractDirection(tokens) == Some(ToTrello) <==>
            exists i :: 0 <= i < |tokens| && tokens[i] == "jira" && "trello" !in tokens[..i]
    ensures ExtractDirection(tokens) == Some(ToJira) <==>
            exists i :: 0 <= i < |tokens| && tokens[i] == "trello" && "jira" !in tokens[..i]
  {
    var j := IndexOf(tokens, "jira");
    var t := IndexOf(tokens, "trello");
    assert tokens[j] == "jira" && tokens[t] == "trello";
    if j < t {
      assert "trello" !in tokens[..j] by {
        assert tokens[..j] == tokens[..t][..j];
      }
      forall i | 0 <= i < |tokens| && tokens[i] == "trello" ensures "jira" in tokens[..i] {
        IndexOfAtMost(tokens, "trello", i);
        assert tokens[..i][j] == "jira";
      }
    } else {
      assert "jira" !in tokens[..t] by {
        assert tokens[..t] == tokens[..j][..t];
      }
      forall i | 0 <= i < |tokens| && tokens[i] == "jira" ensures "trello" in tokens[..i] {
        IndexOfAtMost(tokens, "jira", i);
        assert tokens[..i][t] == "trello";
      }
    }
  }

  // ---------------------------------------------------------------------------
  // Classification

  /** `parseSyncCommand`: now, else a task with its direction, else a
      direction, else a plain sync. */
  function ParseSync(tokens: seq<string>): CommandResult
  {
    if ContainsWords(tokens, NowWords) then CommandResult(SyncAction, NoParams)
    else match ExtractId(tokens)
      case Some(taskId) => CommandResult(SyncAction, NoParams.(taskId := Some(taskId), direction := ExtractDirection(tokens)))
      case None =>
        var direction := ExtractDirection(tokens);
        if direction.Some? then CommandResult(SyncAction, NoParams.(direction := direction))
        else CommandResult(SyncAction, NoParams)
  }

  /** `parseStatusCommand`: whatever the words, a plain status request. */
  function ParseStatus(stemmed: seq<string>): (r: CommandResult)
    ensures r == CommandResult(StatusAction, NoParams)
  {
    if ContainsWords(stemmed, SyncWords) then CommandResult(StatusAction, NoParams)
    else CommandResult(StatusAction, NoParams)
  }

  /** `parseListCommand`: pending first, then errors, else all tasks. */
  function ParseList(stemmed: seq<string>): CommandResult
  {
    if ContainsWords(stemmed, PendingWords) then CommandResult(ListAction, NoParams.(entityType := Some(PendingTasks)))
    else if ContainsWords(stemmed, ErrorWords) then CommandResult(ListAction, NoParams.(entityType := Some(ErroredTasks)))
    else CommandResult(ListAction, NoParams.(entityType := Some(AllTasks)))
  }

  const UnknownCommandCode := "UNKNOWN_COMMAND"

  /** The error for a command no word list recognises; it quotes the
      command as typed. */
  function UnknownCommand(command: string): CommandResult
  {
    CommandResult(ErrorAction, NoParams.(
      errorCode := Some(UnknownCommandCode),
      errorMessage := Some("No pude entender el comando: \"" + command +
                           "\". Intenta con: \"sincronizar ahora\", \"mostrar estado\", \"listar tareas pendientes\"")))
  }

  /** The dispatch of `parseCommand` once the command is lowered, tokenized
      (`tokens`) and stemmed (`stemmed`). */
  function Classify(command: string, tokens: seq<string>, stemmed: seq<string>): CommandResult
  {
    if ContainsWords(stemmed, SyncWords) then ParseSync(tokens)
    else if ContainsWords(stemmed, StatusWords) then ParseStatus(stemmed)
    else if ContainsWords(stemmed, ListWords) then ParseList(stemmed)
    else if ContainsWords(stemmed, ConfigWords) then CommandResult(ConfigureAction, NoParams)
    else UnknownCommand(command)
  }

  /** `parseCommand`: lower the command, split it into words with
      `tokenize`, stem each word with `stem`, and classify. */
  function ParseCommand(tokenize: string -> seq<string>, stem: string -> string, command: string): CommandResult
  {
    var tokens := tokenize(Lower(command));
    Classify(command, tokens, seq(|tokens|, i requires 0 <= i < |tokens| => stem(tokens[i])))
  }

  // ---------------------------------------------------------------------------
  // Suggestions

  /** The commands `getSuggestions` draws from, in its order; the sixth is
      spelled with the two characters U+00C3 U+00B3 where `ó` was meant. */
  const CommonCommands := [
    "sincronizar ahora",
    "sincronizar tarea",
    "mostrar estado",
    "listar tareas pendientes",
    "listar errores",
    "mostrar estado de sincronizaci\U{C3}\U{B3}n",
    "configurar",
    "sync now",
    "sync task",
    "show status",
    "list pending tasks",
    "list errors",
    "configure"]

  const MaxSuggestions := 5

  /** The positions, in order, of the commands that contain `partial` once
      both are lowered: the `filter`. */
  function MatchingPositions(commands: seq<string>, partial: string): (idx: seq<nat>)
    ensures forall k :: 0 <= k < |idx| ==> idx[k] < |commands| && Includes(Lower(commands[idx[k]]), Lower(partial))
    ensures forall k, l :: 0 <= k < l < |idx| ==> idx[k] < idx[l]
    ensures forall i :: 0 <= i < |commands| && Includes(Lower(commands[i]), Lower(partial)) ==> i in idx
  {
    if commands == [] then []
    else
      var n := |commands| - 1;
      var before := MatchingPositions(commands[..n], partial);
      assert forall i :: 0 <= i < n ==> commands[..n][i] == commands[i];
      if Includes(Lower(commands[n]), Lower(partial)) then before + [n] else before
  }

  /** `getSuggestions`: the first five matching commands. */
  function Suggestions(commands: seq<string>, partial: string): (r: seq<string>)
    ensures var idx := MatchingPositions(commands, partial);
            |r| == (if |idx| < MaxSuggestions then |idx| else MaxSuggestions) &&
            forall k :: 0 <= k < |r| ==> r[k] == commands[idx[k]]
  {
    var idx := MatchingPositions(commands, partial);
    var matching := seq(|idx|, k requires 0 <= k < |idx| => commands[idx[k]]);
    if |matching| <= MaxSuggestions then matching else matching[..MaxSuggestions]
  }

  /** `getSuggestions` over the fixed command list: at most five commands,
      each one that contains the partial. */
  function GetSuggestions(partial: string): (r: seq<string>)
    ensures |r| <= MaxSuggestions
    ensures forall k :: 0 <= k < |r| ==> r[k] in CommonCommands && Includes(Lower(r[k]), Lower(partial))
  {
    SuggestionsMeaning(CommonCommands, partial);
    Suggestions(CommonCommands, partial)
  }

  // ---------------------------------------------------------------------------
  // Properties of the classification

  lemma ContainsTwo(tokens: seq<string>, a: string, b: string)
    ensures ContainsWords(tokens, [a, b]) <==> a in tokens || b in tokens
  {
    assert [a, b][0] == a && [a, b][1] == b;
  }

  lemma ContainsThree(tokens: seq<string>, a: string, b: string, c: string)
    ensures ContainsWords(tokens, [a, b, c]) <==> a in tokens || b in tokens || c in tokens
  {
    assert [a, b, c][0] == a && [a, b, c][1] == b && [a, b, c][2] == c;
  }

  lemma ContainsFour(tokens: seq<string>, a: string, b: string, c: string, d: string)
    ensures ContainsWords(tokens, [a, b, c, d]) <==> a in tokens || b in tokens || c in tokens || d in tokens
  {
    assert [a, b, c, d][0] == a && [a, b, c, d][1] == b && [a, b, c, d][2] == c && [a, b, c, d][3] == d;
  }

  /** The word lists are checked in the order sync, status, list. */
  lemma DispatchPriority(command: string, tokens: seq<string>, stemmed: seq<string>)
    ensures var r := Classify(command, tokens, stemmed);
            var sync := "sync" in stemmed || "sincroniz" in stemmed;
            var status := "status" in stemmed || "estado" in stemmed || "show" in stemmed || "mostrar" in stemmed;
            var list := "list" in stemmed || "lista" in stemmed || "listar" in stemmed;
            && (r.action == SyncAction <==> sync)
            && (r.action == StatusAction <==> !sync && status)
            && (r.action == ListAction <==> !sync && !status && list)
  {
    ContainsTwo(stemmed, "sync", "sincroniz");
    ContainsFour(stemmed, "status", "estado", "show", "mostrar");
    ContainsFour(stemmed, "list", "lista", "show", "listar");
  }

  /** Configuration words are checked last; a command with none of the
      words is an unknown-command error. */
  lemma ConfigureThenUnknown(command: string, tokens: seq<string>, stemmed: seq<string>)
    requires !ContainsWords(stemmed, SyncWords) && !ContainsWords(stemmed, StatusWords) && !ContainsWords(stemmed, ListWords)
    ensures var r := Classify(command, tokens, stemmed);
            var configure := "config" in stemmed || "configur" in stemmed || "setup" in stemmed;
            && (configure ==> r == CommandResult(ConfigureAction, NoParams))
            && (!configure ==> r == UnknownCommand(command) && r.action == ErrorAction &&
                               r.params.errorCode == Some(UnknownCommandCode))
  {
    ContainsThree(stemmed, "config", "configur", "setup");
  }

  /** `show` is both a status word and a list word; status is checked
      first, so a command with `show` is never a list request. */
  lemma ShowNeverLists(command: string, tokens: seq<string>, stemmed: seq<string>)
    requires "show" in stemmed
    ensures Classify(command, tokens, stemmed).action != ListAction
  {
    DispatchPriority(command, tokens, stemmed);
  }

  /** A sync request: a `now` word gives a plain sync even when an id is
      present; otherwise the first id names the task, with the direction
      when one is given; otherwise only the direction, if any. */
  lemma SyncParameters(tokens: seq<string>)
    ensures var r := ParseSync(tokens);
            var now := "now" in tokens || "ahora" in tokens || "immediately" in tokens || "inmediatamente" in tokens;
            && r.action == SyncAction
            && (now ==> r.params == NoParams)
            && (!now ==> r.params == NoParams.(taskId := ExtractId(tokens), direction := ExtractDirection(tokens)))
  {
    ContainsFour(tokens, "now", "ahora", "immediately", "inmediatamente");
  }

  /** A list request asks for pending tasks before errored ones, and for all
      tasks when it names neither. */
  lemma ListEntity(stemmed: seq<string>)
    ensures var r := ParseList(stemmed);
            var pending := "pending" in stemmed || "pendient" in stemmed;
            var errors := "error" in stemmed || "failed" in stemmed || "fallido" in stemmed;
            && r.action == ListAction
            && (pending ==> r.params == NoParams.(entityType := Some(PendingTasks)))
            && (!pending && errors ==> r.params == NoParams.(entityType := Some(ErroredTasks)))
            && (!pending && !errors ==> r.params == NoParams.(entityType := Some(AllTasks)))
  {
    ContainsTwo(stemmed, "pending", "pendient");
    ContainsThree(stemmed, "error", "failed", "fallido");
  }

  /** Only a sync request names a task, and the task it names is the first
      id among the tokens. */
  lemma TaskIdOnlyFromSync(command: string, tokens: seq<string>, stemmed: seq<string>)
    ensures var r := Classify(command, tokens, stemmed);
            r.params.taskId.Some? ==> r.action == SyncAction && r.params.taskId == ExtractId(tokens)
  {
    if ContainsWords(stemmed, SyncWords) {
      SyncParameters(tokens);
    }
  }

  /** With a tokenizer that returns pieces of the lowered command, the task
      id of a parsed command is always a 24-digit lowercase hexadecimal
      document id, never an issue key such as `PROJ-12`. */
  lemma ParsedTaskIdIsObjectId(tokenize: string -> seq<string>, stem: string -> string, command: string)
    requires forall k :: 0 <= k < |tokenize(Lower(command))| ==> Includes(Lower(command), tokenize(Lower(command))[k])
    ensures var r := ParseCommand(tokenize, stem, command);
            r.params.taskId.Some? ==> IsObjectId(r.params.taskId.value)
  {
    var tokens := tokenize(Lower(command));
    var stemmed := seq(|tokens|, i requires 0 <= i < |tokens| => stem(tokens[i]));
    assert ParseCommand(tokenize, stem, command) == Classify(command, tokens, stemmed);
    LoweredHasNoCapitals(command);
    forall k | 0 <= k < |tokens| ensures NoCapitals(tokens[k]) {
      PieceHasNoCapitals(Lower(command), tokens[k]);
    }
    IdsWithoutCapitals(tokens);
    TaskIdOnlyFromSync(command, tokens, stemmed);
  }

  // ---------------------------------------------------------------------------
  // Properties of the suggestions

  /** The suggestions are at most five of the commands, each containing the
      typed text regardless of case, in the commands' order, and they are
      every such command when there are fewer than five. */
  lemma SuggestionsMeaning(commands: seq<string>, partial: string)
    ensures var r := Suggestions(commands, partial);
            && |r| <= MaxSuggestions
            && (forall k :: 0 <= k < |r| ==> r[k] in commands && Includes(Lower(r[k]), Lower(partial)))
            && (|r| < MaxSuggestions ==>
                  forall c :: c in commands && Includes(Lower(c), Lower(partial)) ==> c in r)
  {
    var r := Suggestions(commands, partial);
    var idx := MatchingPositions(commands, partial);
    if |r| < MaxSuggestions {
      forall c | c in commands && Includes(Lower(c), Lower(partial)) ensures c in r {
        var i :| 0 <= i < |commands| && commands[i] == c;
        var k :| 0 <= k < |idx| && idx[k] == i;
        assert r[k] == c;
      }
    }
  }

  /** Suggestions keep the commands' order: a suggestion listed before
      another comes before it among the commands. */
  lemma SuggestionsInOrder(commands: seq<string>, partial: string)
    ensures var r := Suggestions(commands, partial);
            var idx := MatchingPositions(commands, partial);
            forall k, l :: 0 <= k < l < |r| ==> idx[k] < idx[l] && r[k] == commands[idx[k]] && r[l] == commands[idx[l]]
  {
  }

  /** The empty text is contained in any text. */
  lemma IncludesEmpty(s: string)
    ensures Includes(s, "")
  {
    assert OccursAt(s, "", 0);
  }

  /** When every command contains the partial one, all positions match. */
  lemma {:induction false} AllPositionsMatch(commands: seq<string>, partial: string)
    requires forall i :: 0 <= i < |commands| ==> Includes(Lower(commands[i]), Lower(partial))
    ensures MatchingPositions(commands, partial) == seq(|commands|, i requires 0 <= i => i)
  {
    if commands != [] {
      var n := |commands| - 1;
      assert forall i :: 0 <= i < n ==> commands[..n][i] == commands[i];
      AllPositionsMatch(commands[..n], partial);
      assert seq(|commands|, i requires 0 <= i => i) == seq(n, i requires 0 <= i => i) + [n];
    }
  }

  /** An empty partial command is suggested the first five commands. */
  lemma EmptyPartialFirstFive(commands: seq<string>)
    requires |commands| >= MaxSuggestions
    ensures Suggestions(commands, "") == commands[..MaxSuggestions]
  {
    forall i | 0 <= i < |commands| ensures Includes(Lower(commands[i]), Lower("")) {
      IncludesEmpty(Lower(commands[i]));
    }
    AllPositionsMatch(commands, "");
  }

  /** `getSuggestions("")` is the first five of the thirteen commands. */
  lemma EmptyPartialSuggestions()
    ensures GetSuggestions("") == ["sincronizar ahora", "sincronizar tarea", "mostrar estado",
                                   "listar tareas pendientes", "listar errores"]
  {
    EmptyPartialFirstFive(CommonCommands);
    assert GetSuggestions("") == CommonCommands[..MaxSuggestions];
  }
}
