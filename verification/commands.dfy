/**
 * The command palette's registry: commands collected from key bindings under
 * sanitised, unique ids, and a substring search over their text.
 */
module Commands {
  import opened Wrappers
  import opened Text
  import opened Seqs

  /** A key binding as the registry reads it: its key, its action and its description. */
  datatype Binding = Binding(key: string, action: string, description: string)

  /** A palette-executable command. The `source` object it points back to is not represented. */
  datatype Command = Command(
    commandId: string,
    action: string,
    labelText: string,
    description: string,
    category: string,
    shortcut: string)

  // ---------------------------------------------------------------------
  // Building a command from a binding

  /** Characters an id keeps: letters, digits, `-` and `_`. */
  predicate IdChar(c: char) {
    IsAlnum(c) || c == '-' || c == '_'
  }

  /** Every other character of the raw identifier becomes `-`. */
  function Sanitized(raw: string): (r: string)
    ensures |r| == |raw|
    ensures forall i :: 0 <= i < |r| ==> IdChar(r[i])
    ensures forall i :: 0 <= i < |r| ==> (IdChar(raw[i]) <==> r[i] == raw[i])
    ensures forall i :: 0 <= i < |r| ==> !IdChar(raw[i]) ==> r[i] == '-'
  {
    seq(|raw|, i requires 0 <= i < |raw| => if IdChar(raw[i]) then raw[i] else '-')
  }

  /** A character that survives sanitising as itself and is not stripped: a letter, a digit or `_`. */
  predicate KeptChar(c: char) {
    IsAlnum(c) || c == '_'
  }

  /**
   * The raw identifier with its other characters made `-` and the `-`s at
   * either end stripped, empty exactly when the raw identifier has no
   * letter, digit or `_`.
   */
  function SafeIdentifier(raw: string): (r: string)
    ensures forall i :: 0 <= i < |r| ==> IdChar(r[i])
    ensures r == [] || (r[0] != '-' && r[|r| - 1] != '-')
    ensures r == [] <==> forall i :: 0 <= i < |raw| ==> !KeptChar(raw[i])
  {
    StripCharKeeps(Sanitized(raw), '-', IdChar);
    NothingKept(raw);
    StripChar(Sanitized(raw), '-')
  }

  /** The safe identifier is a piece of the sanitised identifier with only `-` around it. */
  lemma SafeIdentifierSlice(raw: string)
    ensures var t, r := Sanitized(raw), SafeIdentifier(raw);
      var k := |t| - |StripCharLeft(t, '-')|;
      && k + |r| <= |t| && (forall i :: 0 <= i < |r| ==> r[i] == t[k + i])
      && (forall i :: 0 <= i < k ==> t[i] == '-')
      && (forall i :: k + |r| <= i < |t| ==> t[i] == '-')
  {
    StripCharSlice(Sanitized(raw), '-');
  }

  /** Sanitising gives only `-` exactly when no character is a letter, a digit or `_`. */
  lemma NothingKept(raw: string)
    ensures StripChar(Sanitized(raw), '-') == [] <==> forall i :: 0 <= i < |raw| ==> !KeptChar(raw[i])
  {
    StripCharEmpty(Sanitized(raw), '-');
    SanitizedDash(raw);
  }

  /** A sanitised character is `-` exactly when the raw one is not a letter, a digit or `_`. */
  lemma SanitizedDash(raw: string)
    ensures forall i :: 0 <= i < |raw| ==> (Sanitized(raw)[i] == '-' <==> !KeptChar(raw[i]))
  {
    var t := Sanitized(raw);
    forall i | 0 <= i < |raw|
      ensures t[i] == '-' <==> !KeptChar(raw[i])
    {
      assert t[i] == if IdChar(raw[i]) then raw[i] else '-';
    }
  }

  /** A raw identifier of id characters only, not starting or ending with `-`, is already safe. */
  lemma SafeIdentifierPlain(raw: string)
    requires raw != [] && raw[0] != '-' && raw[|raw| - 1] != '-'
    requires forall i :: 0 <= i < |raw| ==> IdChar(raw[i])
    ensures SafeIdentifier(raw) == raw
  {
    var t := Sanitized(raw);
    assert forall i :: 0 <= i < |raw| ==> t[i] == raw[i];
    assert t == raw;
  }

  /**
   * The id of a binding's command: `<namespace>-<action>` with every other
   * character turned into `-` and the `-`s at either end stripped, or
   * `<namespace>-command` when nothing is left. The namespace is lower-cased.
   */
  function CommandId(namespace: string, action: string): (r: string)
    ensures r != []
    ensures var raw := Lower(namespace) + "-" + action;
      (forall i :: 0 <= i < |raw| ==> !KeptChar(raw[i])) ==> r == Lower(namespace) + "-command"
    ensures var raw := Lower(namespace) + "-" + action;
      !(forall i :: 0 <= i < |raw| ==> !KeptChar(raw[i])) ==>
        && r == SafeIdentifier(raw)
        && (forall i :: 0 <= i < |r| ==> IdChar(r[i])) && r[0] != '-' && r[|r| - 1] != '-'
  {
    var safe := SafeIdentifier(Lower(namespace) + "-" + action);
    if safe == [] then Lower(namespace) + "-command"
    else safe
  }

  /** Lower-casing keeps id characters. */
  lemma LowerIdChars(s: string)
    requires forall i :: 0 <= i < |s| ==> IdChar(s[i])
    ensures forall i :: 0 <= i < |Lower(s)| ==> IdChar(Lower(s)[i])
  {
  }

  /** The raw identifier of an id-character namespace and action is made of id characters. */
  lemma RawIdChars(namespace: string, action: string)
    requires forall i :: 0 <= i < |namespace| ==> IdChar(namespace[i])
    requires forall i :: 0 <= i < |action| ==> IdChar(action[i])
    ensures forall i :: 0 <= i < |Lower(namespace) + "-" + action| ==> IdChar((Lower(namespace) + "-" + action)[i])
  {
    LowerIdChars(namespace);
  }

  /** An id made only of id characters, with a namespace to start it and an action to end it, is kept as it is. */
  lemma CommandIdPlain(namespace: string, action: string)
    requires Lower(namespace) != [] && Lower(namespace)[0] != '-'
    requires action != [] && action[|action| - 1] != '-'
    requires forall i :: 0 <= i < |namespace| ==> IdChar(namespace[i])
    requires forall i :: 0 <= i < |action| ==> IdChar(action[i])
    ensures CommandId(namespace, action) == Lower(namespace) + "-" + action
  {
    var raw := Lower(namespace) + "-" + action;
    RawIdChars(namespace, action);
    assert raw[0] == Lower(namespace)[0] && raw[|raw| - 1] == action[|action| - 1];
    SafeIdentifierPlain(raw);
  }

  /**
   * A binding's label: its description, or its action with `_` as spaces in
   * title case: each letter upper-cased at the start of a word and
   * lower-cased inside one.
   */
  function Label(b: Binding): (r: string)
    ensures b.description != [] ==> r == b.description
    ensures b.description == [] ==> |r| == |b.action|
    ensures b.description == [] ==> forall i :: 0 <= i < |b.action| ==>
      r[i] == if b.action[i] == '_' then ' '
              else if i == 0 || !IsAlpha(b.action[i - 1]) then UpperChar(b.action[i])
              else LowerChar(b.action[i])
  {
    if b.description != [] then b.description else Title(ReplaceChar(b.action, '_', ' '))
  }

  /** The command registered for a binding in the given namespace and category. */
  function MakeCommand(namespace: string, b: Binding, category: string): (r: Command)
    ensures r.commandId == CommandId(namespace, b.action)
    ensures r.action == b.action && r.category == category && r.shortcut == b.key
    ensures r.description == r.labelText
    ensures b.action != [] ==> r.labelText != []
  {
    var text := Label(b);
    Command(CommandId(namespace, b.action), b.action, text, if b.description != [] then b.description else text, category, b.key)
  }

  // ---------------------------------------------------------------------
  // Registration

  /** The registry's contents: its commands in registration order and the ids it has handed out. */
  datatype Registry = Registry(commands: seq<Command>, seenIds: set<string>)

  /** The commands' ids are distinct, and the seen ids are exactly those ids. */
  predicate ValidRegistry(reg: Registry) {
    && (forall i, j :: 0 <= i < j < |reg.commands| ==> reg.commands[i].commandId != reg.commands[j].commandId)
    && (forall id :: id in reg.seenIds ==> exists c :: c in reg.commands && c.commandId == id)
    && (forall c :: c in reg.commands ==> c.commandId in reg.seenIds)
  }

  /** What a binding asks to register: nothing when its action is empty, else its command. */
  function Request(namespace: string, b: Binding, category: string): (r: Option<Command>)
    ensures r.None? <==> b.action == []
    ensures r.Some? ==> r.value == MakeCommand(namespace, b, category)
  {
    if b.action == [] then None else Some(MakeCommand(namespace, b, category))
  }

  /** The requests of a sequence of bindings, one per binding. */
  function Requests(namespace: string, bindings: seq<Binding>, category: string): (r: seq<Option<Command>>)
    ensures |r| == |bindings|
    ensures forall i :: 0 <= i < |bindings| ==> r[i] == Request(namespace, bindings[i], category)
  {
    seq(|bindings|, i requires 0 <= i < |bindings| => Request(namespace, bindings[i], category))
  }

  /** One request: appended unless it is empty or its id is already taken. */
  function Step(reg: Registry, req: Option<Command>): Registry {
    match req
    case None => reg
    case Some(c) =>
      if c.commandId in reg.seenIds then reg
      else Registry(reg.commands + [c], reg.seenIds + {c.commandId})
  }

  /** The ids the requests ask for. */
  function Requested(reqs: seq<Option<Command>>): set<string>
    decreases |reqs|
  {
    if reqs == [] then {}
    else
      var n := |reqs| - 1;
      Requested(reqs[..n]) + (if reqs[n].None? then {} else {reqs[n].value.commandId})
  }

  /**
   * `register_bindings`: the requests in turn. Commands already registered
   * stay in place and the seen ids grow by exactly the requested ids.
   */
  function Registered(reg: Registry, reqs: seq<Option<Command>>): (r: Registry)
    ensures |reg.commands| <= |r.commands| && r.commands[..|reg.commands|] == reg.commands
    ensures r.seenIds == reg.seenIds + Requested(reqs)
    decreases |reqs|
  {
    if reqs == [] then reg
    else
      var n := |reqs| - 1;
      var prev := Registered(reg, reqs[..n]);
      var r := Step(prev, reqs[n]);
      assert r.commands[..|prev.commands|] == prev.commands;
      assert prev.commands[..|reg.commands|] == reg.commands;
      r
  }

  /** Registration keeps a registry valid: ids stay distinct and the seen ids stay those of the commands. */
  lemma {:induction false} RegisteredValid(reg: Registry, reqs: seq<Option<Command>>)
    requires ValidRegistry(reg)
    ensures ValidRegistry(Registered(reg, reqs))
    decreases |reqs|
  {
    if reqs != [] {
      var n := |reqs| - 1;
      RegisteredValid(reg, reqs[..n]);
      StepValid(Registered(reg, reqs[..n]), reqs[n]);
    }
  }

  /** One step keeps a registry valid: the appended command's id was not taken. */
  lemma StepValid(reg: Registry, req: Option<Command>)
    ensures ValidRegistry(reg) ==> ValidRegistry(Step(reg, req))
  {
    var r := Step(reg, req);
    if ValidRegistry(reg) && req.Some? && req.value.commandId !in reg.seenIds {
      var c := req.value;
      assert r.commands == reg.commands + [c];
      forall id | id in r.seenIds
        ensures exists d :: d in r.commands && d.commandId == id
      {
        if id != c.commandId {
          var d :| d in reg.commands && d.commandId == id;
          assert d in r.commands;
        } else {
          assert c in r.commands;
        }
      }
    }
  }

  /** `get`: the first command with the id, if any. */
  function Find(commands: seq<Command>, id: string): (r: Option<Command>)
    ensures r.Some? ==> r.value in commands && r.value.commandId == id
    ensures r.None? <==> forall c :: c in commands ==> c.commandId != id
  {
    if commands == [] then None
    else if commands[0].commandId == id then Some(commands[0])
    else Find(commands[1..], id)
  }

  /** Appending a command does not change what an earlier command is found for. */
  lemma {:induction false} FindSnoc(commands: seq<Command>, c: Command, id: string)
    ensures Find(commands + [c], id) == if Find(commands, id).Some? then Find(commands, id) else if c.commandId == id then Some(c) else None
  {
    if commands != [] {
      assert (commands + [c])[1..] == commands[1..] + [c];
      FindSnoc(commands[1..], c, id);
    }
  }

  /** In a valid registry an id belongs to at most one command, the one `get` returns. */
  lemma FindUnique(reg: Registry, id: string)
    requires ValidRegistry(reg)
    ensures Find(reg.commands, id).Some? <==> id in reg.seenIds
    ensures forall c :: c in reg.commands && c.commandId == id ==> Find(reg.commands, id) == Some(c)
  {
    forall c | c in reg.commands && c.commandId == id
      ensures Find(reg.commands, id) == Some(c)
    {
      var d := Find(reg.commands, id).value;
      var i :| 0 <= i < |reg.commands| && reg.commands[i] == c;
      var j :| 0 <= j < |reg.commands| && reg.commands[j] == d;
      assert i == j;
    }
  }

  /** What one step does to the command found for an id. */
  lemma StepFind(prev: Registry, req: Option<Command>, id: string)
    requires ValidRegistry(prev)
    ensures Find(Step(prev, req).commands, id)
      == if id in prev.seenIds then Find(prev.commands, id)
         else if req.Some? && req.value.commandId == id then req
         else None
  {
    FindUnique(prev, id);
    if req.Some? && req.value.commandId !in prev.seenIds {
      FindSnoc(prev.commands, req.value, id);
    }
  }

  /** An id no request asks for is not among the requested ids. */
  lemma {:induction false} NotRequested(reqs: seq<Option<Command>>, id: string)
    requires forall j :: 0 <= j < |reqs| ==> reqs[j].None? || reqs[j].value.commandId != id
    ensures id !in Requested(reqs)
    decreases |reqs|
  {
    if reqs != [] {
      NotRequested(reqs[..|reqs| - 1], id);
    }
  }

  /** `reqs[i]` asks for an id that no earlier request asks for. */
  predicate FirstRequest(reqs: seq<Option<Command>>, i: nat) {
    && i < |reqs| && reqs[i].Some?
    && forall j :: 0 <= j < i ==> reqs[j].None? || reqs[j].value.commandId != reqs[i].value.commandId
  }

  lemma FirstRequestPrefix(reqs: seq<Option<Command>>, n: nat, i: nat)
    requires FirstRequest(reqs, i) && i < n <= |reqs|
    ensures FirstRequest(reqs[..n], i) && reqs[..n][i] == reqs[i]
  {
  }

  /**
   * The first registration wins: the first request for an id the registry
   * has not seen is the command that carries it afterwards.
   */
  lemma {:induction false} FirstRegistrationWins(reg: Registry, reqs: seq<Option<Command>>, i: nat)
    requires ValidRegistry(reg)
    requires FirstRequest(reqs, i) && reqs[i].value.commandId !in reg.seenIds
    ensures Find(Registered(reg, reqs).commands, reqs[i].value.commandId) == reqs[i]
    decreases |reqs|
  {
    var id := reqs[i].value.commandId;
    var n := |reqs| - 1;
    var prefix := reqs[..n];
    var prev := Registered(reg, prefix);
    RegisteredValid(reg, prefix);
    StepFind(prev, reqs[n], id);
    if i < n {
      FirstRequestPrefix(reqs, n, i);
      FirstRegistrationWins(reg, prefix, i);
    } else {
      NotRequested(prefix, id);
    }
  }

  /** An id the registry already held keeps its command: later requests for it are skipped. */
  lemma {:induction false} RegisteredKeepsExisting(reg: Registry, reqs: seq<Option<Command>>, id: string)
    requires ValidRegistry(reg) && id in reg.seenIds
    ensures Find(Registered(reg, reqs).commands, id) == Find(reg.commands, id)
    decreases |reqs|
  {
    if reqs != [] {
      var n := |reqs| - 1;
      RegisteredKeepsExisting(reg, reqs[..n], id);
      RegisteredValid(reg, reqs[..n]);
      StepFind(Registered(reg, reqs[..n]), reqs[n], id);
    }
  }

  /**
   * For bindings: the first binding with a non-empty action that asks for a
   * fresh id registers its command under that id.
   */
  lemma FirstBindingWins(reg: Registry, namespace: string, bindings: seq<Binding>, category: string, i: nat)
    requires ValidRegistry(reg)
    requires i < |bindings| && bindings[i].action != []
    requires CommandId(namespace, bindings[i].action) !in reg.seenIds
    requires forall j :: 0 <= j < i ==> bindings[j].action == [] || CommandId(namespace, bindings[j].action) != CommandId(namespace, bindings[i].action)
    ensures Find(Registered(reg, Requests(namespace, bindings, category)).commands, CommandId(namespace, bindings[i].action))
      == Some(MakeCommand(namespace, bindings[i], category))
  {
    var reqs := Requests(namespace, bindings, category);
    assert FirstRequest(reqs, i);
    FirstRegistrationWins(reg, reqs, i);
  }

  // ---------------------------------------------------------------------
  // Search

  /** `filter(None, parts)`: the non-empty parts, in order. */
  function NonEmpty(parts: seq<string>): (r: seq<string>)
    ensures forall p :: p in r <==> p in parts && p != []
  {
    if parts == [] then []
    else (if parts[0] == [] then [] else [parts[0]]) + NonEmpty(parts[1..])
  }

  /** The lower-cased texts of a command that a query is looked for in. */
  function Fields(c: Command): seq<string> {
    [Lower(c.labelText), Lower(c.action), Lower(c.description), Lower(c.commandId), Lower(c.category)]
  }

  /** The text a query is looked for in: the non-empty lower-cased fields joined by spaces. */
  function Haystack(c: Command): string {
    Join(" ", NonEmpty(Fields(c)))
  }

  predicate Matches(c: Command, query: string) {
    Contains(Haystack(c), query)
  }

  /** A non-empty query found in any one field of a command matches it. */
  lemma MatchesField(c: Command, query: string, k: nat)
    requires query != [] && k < 5 && Contains(Fields(c)[k], query)
    ensures Matches(c, query)
  {
    var parts := NonEmpty(Fields(c));
    assert Fields(c)[k] != [];
    assert Fields(c)[k] in parts;
    var m :| 0 <= m < |parts| && parts[m] == Fields(c)[k];
    ContainsJoinPart(" ", parts, m, query);
  }

  /** The commands matching a query, in registration order. */
  function Matching(commands: seq<Command>, query: string): (r: seq<Command>)
    ensures |r| <= |commands|
    decreases |commands|
  {
    if commands == [] then []
    else
      var n := |commands| - 1;
      Matching(commands[..n], query) + (if Matches(commands[n], query) then [commands[n]] else [])
  }

  /** One more command is kept exactly when it matches. */
  lemma MatchingSnoc(prefix: seq<Command>, c: Command, query: string)
    ensures Matching(prefix + [c], query) == Matching(prefix, query) + (if Matches(c, query) then [c] else [])
  {
    assert (prefix + [c])[..|prefix|] == prefix;
  }

  /** Exactly the matching commands are kept. */
  lemma {:induction false} MatchingMembers(commands: seq<Command>, query: string)
    ensures forall c :: c in Matching(commands, query) <==> c in commands && Matches(c, query)
    decreases |commands|
  {
    if commands != [] {
      var n := |commands| - 1;
      MatchingMembers(commands[..n], query);
      assert commands == commands[..n] + [commands[n]];
    }
  }

  /** Filtering keeps registration order: it distributes over concatenation. */
  lemma {:induction false} MatchingConcat(a: seq<Command>, b: seq<Command>, query: string)
    ensures Matching(a + b, query) == Matching(a, query) + Matching(b, query)
    decreases |b|
  {
    if b != [] {
      var n := |b| - 1;
      assert (a + b)[..|a| + n] == a + b[..n];
      assert (a + b)[|a| + n] == b[n];
      MatchingConcat(a, b[..n], query);
    } else {
      assert a + b == a;
    }
  }

  /** `search`: everything for a blank query, else the commands whose text holds the stripped, lower-cased query. */
  function Searched(commands: seq<Command>, query: string): seq<Command> {
    var normalized := Lower(Strip(query));
    if normalized == [] then commands else Matching(commands, normalized)
  }

  /** Every command holds the empty string, so a blank query is the same as filtering on it. */
  lemma {:induction false} MatchingEmpty(commands: seq<Command>)
    ensures Matching(commands, []) == commands
    decreases |commands|
  {
    if commands != [] {
      var n := |commands| - 1;
      assert OccursAt(Haystack(commands[n]), [], 0);
      MatchingEmpty(commands[..n]);
      assert commands == commands[..n] + [commands[n]];
    }
  }

  /** Search results are the registered commands that match, in registration order, and every match is among them. */
  lemma SearchedEffect(commands: seq<Command>, query: string)
    ensures Searched(commands, query) == Matching(commands, Lower(Strip(query)))
    ensures forall c :: c in Searched(commands, query) <==> c in commands && Matches(c, Lower(Strip(query)))
  {
    if Lower(Strip(query)) == [] {
      MatchingEmpty(commands);
    }
    MatchingMembers(commands, Lower(Strip(query)));
  }

  // ---------------------------------------------------------------------
  // The registry object

  class CommandRegistry {
    var commands: seq<Command>
    var seenIds: set<string>

    function View(): Registry
      reads this
    {
      Registry(commands, seenIds)
    }

    predicate Valid()
      reads this
    {
      ValidRegistry(View())
    }

    constructor ()
      ensures View() == Registry([], {})
      ensures Valid()
    {
      commands := [];
      seenIds := {};
    }

    /** `register_bindings` from a source whose namespace is `namespace`, before lower-casing. */
    method RegisterBindings(namespace: string, bindings: seq<Binding>, category: string)
      modifies this
      ensures View() == Registered(old(View()), Requests(namespace, bindings, category))
      ensures old(Valid()) ==> Valid()
    {
      ghost var reqs := Requests(namespace, bindings, category);
      var i := 0;
      while i < |bindings|
        invariant 0 <= i <= |bindings|
        invariant View() == Registered(old(View()), reqs[..i])
      {
        PrefixStep(reqs, i);
        Add(Request(namespace, bindings[i], category));
        i := i + 1;
      }
      PrefixWhole(reqs);
      if old(Valid()) {
        RegisteredValid(old(View()), reqs);
      }
    }

    /** The body of the `register_bindings` loop for one binding's request. */
    method Add(req: Option<Command>)
      modifies this
      ensures View() == Step(old(View()), req)
    {
      if req.Some? && req.value.commandId !in seenIds {
        commands := commands + [req.value];
        seenIds := seenIds + {req.value.commandId};
      }
    }

    /** `commands`: the registered commands in registration order. */
    method AllCommands() returns (r: seq<Command>)
      ensures r == commands
    {
      r := commands;
    }

    /** `search`. */
    method Search(query: string) returns (r: seq<Command>)
      ensures r == Searched(commands, query)
    {
      var normalized := Lower(Strip(query));
      if normalized == [] {
        return commands;
      }
      r := [];
      var i := 0;
      while i < |commands|
        invariant 0 <= i <= |commands|
        invariant r == Matching(commands[..i], normalized)
      {
        PrefixStep(commands, i);
        MatchingSnoc(commands[..i], commands[i], normalized);
        if Matches(commands[i], normalized) {
          r := r + [commands[i]];
        }
        i := i + 1;
      }
      PrefixWhole(commands);
    }

    /** `get`: a linear scan for the id. */
    method Get(id: string) returns (r: Option<Command>)
      ensures r == Find(commands, id)
    {
      var i := 0;
      while i < |commands|
        invariant 0 <= i <= |commands|
        invariant Find(commands, id) == Find(commands[i..], id)
      {
        if commands[i].commandId == id {
          return Some(commands[i]);
        }
        assert commands[i..][1..] == commands[i + 1..];
        i := i + 1;
      }
      r := None;
    }
  }
}
