/**
 * The key inspector's text handling: splitting the value field into a
 * behavior and its inline parameters, the tokens a key slot is displayed
 * with, the reference count shown beside a macro, the hold-tap
 * "on release" flag read from its text field, and the macro list entry
 * selected after a rebuild.
 */
module Inspector {
  import opened Wrappers
  import opened Json
  import opened Text
  import opened Seqs

  // ---------------------------------------------------------------------
  // KeyInspector._split_value_tokens

  /**
   * `_split_value_tokens`: a blank field gives nothing; a `&` behavior
   * followed by more words gives the behavior and those words; anything
   * else is one value without parameters.
   */
  function SplitValueTokens(text: string): (string, seq<string>) {
    var raw := Strip(text);
    if raw == [] then ("", [])
    else
      var tokens := Split(raw);
      if |tokens| > 1 && StartsWith(tokens[0], "&") then (tokens[0], tokens[1..]) else (raw, [])
  }

  /**
   * With parameters, the value is a `&` behavior and it and the parameters
   * are the field's words, all of them; without, the value is the whole
   * stripped field.
   */
  lemma SplitValueTokensEffect(text: string)
    ensures var r := SplitValueTokens(text);
      && (r.1 != [] ==> IsWord(r.0) && r.0[0] == '&' && Split(Strip(text)) == [r.0] + r.1)
      && (forall k :: 0 <= k < |r.1| ==> IsWord(r.1[k]))
      && (r.1 == [] ==> r.0 == Strip(text))
  {
    var raw := Strip(text);
    var r := SplitValueTokens(text);
    if raw != [] {
      var tokens := Split(raw);
      SplitWords(raw);
      if |tokens| > 1 && StartsWith(tokens[0], "&") {
        assert r == (tokens[0], tokens[1..]);
        assert tokens == [tokens[0]] + tokens[1..];
        forall k | 0 <= k < |r.1|
          ensures IsWord(r.1[k])
        {
          assert r.1[k] == tokens[k + 1];
        }
      }
    }
  }

  /** A `&` behavior written with its parameters, separated by single spaces, splits back into them. */
  lemma InlineParamsRoundTrip(behavior: string, params: seq<string>)
    requires IsWord(behavior) && behavior[0] == '&'
    requires params != [] && forall k :: 0 <= k < |params| ==> IsWord(params[k])
    ensures SplitValueTokens(Join(" ", [behavior] + params)) == (behavior, params)
  {
    var words := [behavior] + params;
    var text := Join(" ", words);
    assert forall k :: 0 <= k < |words| ==> IsWord(words[k]);
    JoinOfWordsStripped(words);
    SplitJoin(words);
    assert Strip(text) == text && Split(text) == words;
    JoinStartsWithFirst(words);
    assert text != [];
    assert words[0] == behavior && words[1..] == params;
  }

  // ---------------------------------------------------------------------
  // _display_tokens

  /** `str(slot.get("value", ""))`. */
  function SlotValue(slot: seq<(string, Json)>): string {
    match Get(slot, "value")
    case Some(v) => PyStr(v)
    case None => ""
  }

  /** `slot.get("params", [])`. */
  function SlotParams(slot: seq<(string, Json)>): Json {
    match Get(slot, "params")
    case Some(p) => p
    case None => JArr([])
  }

  /** The token of one parameter: a dict shows its "value", else its "name", else its JSON text; anything else its `str`. */
  function ParamToken(entry: Json): string {
    if entry.JObj? && HasKey(entry.fields, "value") then PyStr(Get(entry.fields, "value").value)
    else if entry.JObj? && HasKey(entry.fields, "name") then PyStr(Get(entry.fields, "name").value)
    else if entry.JObj? then Dumps(entry)
    else PyStr(entry)
  }

  /** One token per parameter, in order. */
  function ParamTokens(entries: seq<Json>): (r: seq<string>)
    ensures |r| == |entries|
  {
    seq(|entries|, k requires 0 <= k < |entries| => ParamToken(entries[k]))
  }

  /** The parameters are written inside the value: no parameters, and a `&` value holding a space. */
  predicate InlineParams(raw: string, params: Json) {
    !Truthy(params) && StartsWith(raw, "&") && Contains(raw, " ")
  }

  /**
   * `_display_tokens`: a value holding its own parameters is split on
   * whitespace; otherwise the value is shown whole, with one token per
   * parameter of a parameter list and none for anything else (a string
   * included).
   */
  function DisplayTokensOf(slot: seq<(string, Json)>): (r: (string, seq<string>))
    ensures !InlineParams(SlotValue(slot), SlotParams(slot)) ==> r.0 == SlotValue(slot)
    ensures !InlineParams(SlotValue(slot), SlotParams(slot)) && SlotParams(slot).JArr? ==>
      |r.1| == |SlotParams(slot).items|
    ensures !InlineParams(SlotValue(slot), SlotParams(slot)) && !SlotParams(slot).JArr? ==> r.1 == []
    ensures InlineParams(SlotValue(slot), SlotParams(slot)) ==> Split(SlotValue(slot)) == [r.0] + r.1
  {
    var raw := SlotValue(slot);
    var params := SlotParams(slot);
    if InlineParams(raw, params) then
      SplitFront(raw);
      var pieces := Split(raw);
      assert pieces == [pieces[0]] + pieces[1..];
      (pieces[0], pieces[1..])
    else (raw, if params.JArr? then ParamTokens(params.items) else [])
  }

  /** The `_display_tokens` loop over the parameters. */
  method DisplayTokens(slot: seq<(string, Json)>) returns (value: string, tokens: seq<string>)
    ensures (value, tokens) == DisplayTokensOf(slot)
  {
    var raw := SlotValue(slot);
    var params := SlotParams(slot);
    if !Truthy(params) && StartsWith(raw, "&") && Contains(raw, " ") {
      SplitFront(raw);
      var pieces := Split(raw);
      return pieces[0], pieces[1..];
    }
    tokens := [];
    if params.JArr? {
      var i := 0;
      while i < |params.items|
        invariant 0 <= i <= |params.items|
        invariant tokens == ParamTokens(params.items[..i])
      {
        tokens := tokens + [ParamToken(params.items[i])];
        i := i + 1;
      }
      assert params.items[..i] == params.items;
    }
    value := raw;
  }

  /**
   * A key whose value carries its parameters inline, and no parameter list,
   * is displayed as the behavior and those parameters, just as the form
   * splits them.
   */
  lemma DisplayInlineRoundTrip(behavior: string, params: seq<string>)
    requires IsWord(behavior) && behavior[0] == '&'
    requires params != [] && forall k :: 0 <= k < |params| ==> IsWord(params[k])
    ensures var text := Join(" ", [behavior] + params);
      && DisplayTokensOf([("value", JStr(text))]) == (behavior, params)
      && DisplayTokensOf([("value", JStr(text))]) == SplitValueTokens(text)
  {
    var text := Join(" ", [behavior] + params);
    var slot := [("value", JStr(text))];
    InlineText(behavior, params);
    GetSingle("value", JStr(text), "value");
    GetSingle("value", JStr(text), "params");
    var pieces := Split(text);
    assert DisplayTokensOf(slot) == (pieces[0], pieces[1..]);
    assert pieces[1..] == params;
    InlineParamsRoundTrip(behavior, params);
  }

  /** A `&` behavior followed by its parameters reads as inline parameters and splits into its words. */
  lemma InlineText(behavior: string, params: seq<string>)
    requires IsWord(behavior) && behavior[0] == '&'
    requires params != [] && forall k :: 0 <= k < |params| ==> IsWord(params[k])
    ensures var text := Join(" ", [behavior] + params);
      InlineParams(text, JArr([])) && Split(text) == [behavior] + params
  {
    JoinFront(behavior, params);
    SpaceBetween(behavior, Join(" ", params));
    WordsFront(behavior, params);
  }

  /** A word in front of words splits back out of their join. */
  lemma WordsFront(behavior: string, params: seq<string>)
    requires IsWord(behavior)
    requires forall k :: 0 <= k < |params| ==> IsWord(params[k])
    ensures Split(Join(" ", [behavior] + params)) == [behavior] + params
  {
    var words := [behavior] + params;
    assert forall k :: 0 <= k < |words| ==> IsWord(words[k]) by {
      forall k | 0 <= k < |words|
        ensures IsWord(words[k])
      {
        if k > 0 {
          assert words[k] == params[k - 1];
        }
      }
    }
    SplitJoin(words);
  }

  /** A `&` word, a space and more text start with `&` and hold a space. */
  lemma SpaceBetween(behavior: string, rest: string)
    requires behavior != [] && behavior[0] == '&'
    ensures StartsWith(behavior + " " + rest, "&") && Contains(behavior + " " + rest, " ")
  {
    var text := behavior + " " + rest;
    assert text[..1] == "&";
    assert text[|behavior|..|behavior| + 1] == " ";
    assert OccursAt(text, " ", |behavior|);
  }

  /** A key with a parameter list shows its value whole and one token per parameter, each read as the parameter says. */
  lemma DisplayParamList(value: string, entries: seq<Json>)
    requires entries != []
    ensures var r := DisplayTokensOf([("value", JStr(value)), ("params", JArr(entries))]);
      && r.0 == value
      && |r.1| == |entries|
      && forall k :: 0 <= k < |entries| ==> r.1[k] == ParamToken(entries[k])
  {
    var slot := [("value", JStr(value)), ("params", JArr(entries))];
    assert Get(slot, "value") == Some(JStr(value));
    assert Get(slot[1..], "params") == Some(JArr(entries));
  }

  // ---------------------------------------------------------------------
  // _reference_count

  /** `_reference_count`: the number of references, over every kind of reference. */
  function ReferenceCount(refs: seq<(string, seq<Json>)>): (r: nat)
    ensures r == 0 <==> forall k :: 0 <= k < |refs| ==> refs[k].1 == []
    ensures forall k :: 0 <= k < |refs| ==> |refs[k].1| <= r
    decreases |refs|
  {
    if refs == [] then 0
    else
      var n := |refs| - 1;
      assert forall k :: 0 <= k < n ==> refs[..n][k] == refs[k];
      ReferenceCount(refs[..n]) + |refs[n].1|
  }

  /** Counting references of two groups of kinds adds up. */
  lemma {:induction false} ReferenceCountConcat(a: seq<(string, seq<Json>)>, b: seq<(string, seq<Json>)>)
    ensures ReferenceCount(a + b) == ReferenceCount(a) + ReferenceCount(b)
    decreases |b|
  {
    if b == [] {
      assert a + b == a;
    } else {
      var n := |b| - 1;
      var ab := a + b;
      ReferenceCountConcat(a, b[..n]);
      assert ab[..|ab| - 1] == a + b[..n];
      assert ab[|ab| - 1] == b[n];
      assert ReferenceCount(ab) == ReferenceCount(a + b[..n]) + |b[n].1|;
      assert ReferenceCount(b) == ReferenceCount(b[..n]) + |b[n].1|;
    }
  }

  // ---------------------------------------------------------------------
  // Hold-tap "holdTriggerOnRelease"

  /**
   * The hold-tap form's "on release" field, stripped and lower-cased:
   * "true", "1", "yes" and "on" set the flag, "false", "0", "no" and "off"
   * clear it, and anything else leaves it out of the payload.
   */
  function OnRelease(text: string): Option<bool> {
    var word := Lower(Strip(text));
    if word in {"true", "1", "yes", "on"} then Some(true)
    else if word in {"false", "0", "no", "off"} then Some(false)
    else None
  }

  /** What loading a hold-tap writes into the field: "true" when the flag is set, nothing otherwise. */
  function OnReleaseText(release: Json): string {
    if Truthy(release) then "true" else ""
  }

  /** Loading a hold-tap and saving it again keeps a set flag, but drops a cleared one from the payload. */
  lemma OnReleaseReload(release: Json)
    ensures OnRelease(OnReleaseText(release)) == if Truthy(release) then Some(true) else None
  {
    if Truthy(release) {
      assert OnReleaseText(release) == "true";
      StrippedAlready("true");
      LowerAlready("true");
    } else {
      assert Strip("") == "";
    }
  }

  // ---------------------------------------------------------------------
  // Macro list selection in _rebuild_list

  /** The name to select: the preferred one when listed, else the first listed name, else none. */
  function TargetName(names: seq<string>, preferred: Option<string>): (r: Option<string>)
    ensures r.Some? ==> r.value in names
    ensures r.None? <==> names == []
    ensures preferred.Some? && preferred.value in names ==> r == preferred
    ensures (preferred.None? || preferred.value !in names) && names != [] ==> r == Some(names[0])
  {
    if preferred.Some? && preferred.value in names then preferred
    else if names != [] then Some(names[0])
    else None
  }

  /**
   * The list index selected after a rebuild: none for an empty list; else
   * the first position of the target name, or 0 when that name is empty.
   */
  method SelectedIndex(names: seq<string>, preferred: Option<string>) returns (index: Option<nat>)
    ensures index.None? <==> names == []
    ensures index.Some? ==> index.value < |names|
    ensures index.Some? && TargetName(names, preferred).value != "" ==>
      index.value == IndexOf(names, TargetName(names, preferred).value)
    ensures index.Some? && TargetName(names, preferred).value == "" ==> index.value == 0
  {
    if names == [] {
      return None;
    }
    var target := TargetName(names, preferred);
    var i := 0;
    if target.value != "" {
      var idx := 0;
      while idx < |names|
        invariant 0 <= idx <= |names|
        invariant target.value !in names[..idx]
      {
        if names[idx] == target.value {
          i := idx;
          IndexOfFirst(names, target.value, idx);
          break;
        }
        assert names[..idx + 1] == names[..idx] + [names[idx]];
        idx := idx + 1;
      }
    }
    return Some(i);
  }

  /** A position that holds `x`, with no `x` before it, is `x`'s index. */
  lemma IndexOfFirst(names: seq<string>, x: string, i: nat)
    requires i < |names| && names[i] == x && x !in names[..i]
    ensures IndexOf(names, x) == i
  {
  }

  /** The preferred macro, when listed under a non-empty name, is the one selected. */
  lemma PreferredSelected(names: seq<string>, preferred: string)
    requires preferred in names && preferred != ""
    ensures TargetName(names, Some(preferred)) == Some(preferred)
    ensures names[IndexOf(names, preferred)] == preferred
  {
  }
}
