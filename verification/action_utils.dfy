/**
 * Short labels and one-line descriptions of agent actions, as the step list
 * and the step detail show them.
 */
module ActionUtils {
  import opened Wrappers
  import opened Types

  /** The label table, keyed by the action's `type` string. */
  const LabelTable: seq<(string, string)> := [
    ("click", "Click"), ("type", "Type"), ("scroll", "Scroll"),
    ("tool_call", "Tool"), ("navigate", "Nav"), ("wait", "Wait"),
    ("select", "Select"), ("hover", "Hover"), ("key_press", "Key")
  ]

  function Lookup(table: seq<(string, string)>, key: string): (r: Option<string>)
    ensures r.None? <==> forall i :: 0 <= i < |table| ==> table[i].0 != key
    ensures r.Some? ==> exists i :: 0 <= i < |table| && table[i] == (key, r.value)
  {
    if table == [] then None
    else if table[0].0 == key then Some(table[0].1)
    else
      var r := Lookup(table[1..], key);
      assert forall i :: 1 <= i < |table| ==> table[i] == table[1..][i - 1];
      assert r.Some? ==> exists i :: 1 <= i < |table| && table[i] == (key, r.value) by {
        if r.Some? {
          var j :| 0 <= j < |table[1..]| && table[1..][j] == (key, r.value);
          assert table[j + 1] == (key, r.value);
        }
      }
      r
  }

  /** The short label of each action tag, by tag. */
  function ShortLabel(t: ActionType): string {
    match t
    case Click => "Click"
    case Type => "Type"
    case Scroll => "Scroll"
    case ToolCall => "Tool"
    case Navigate => "Nav"
    case Wait => "Wait"
    case Select => "Select"
    case Hover => "Hover"
    case KeyPress => "Key"
  }

  /**
   * The label looked up in the table; a string that is not a key (the table
   * has only non-empty labels, so a hit is always truthy) is returned as is.
   */
  function ActionLabel(actionType: string): (r: string)
    ensures (forall t: ActionType :: actionType != TypeName(t)) ==> r == actionType
  {
    assert forall i :: 0 <= i < |LabelTable| ==> LabelTable[i].0 == TypeName(AllActionTypes[i]);
    match Lookup(LabelTable, actionType)
    case Some(text) => if text != "" then text else actionType
    case None => actionType
  }

  /** Every known type string gets its tag's fixed short label. */
  lemma LabelOfEveryType(t: ActionType)
    ensures ActionLabel(TypeName(t)) == ShortLabel(t)
  {
    match t
    case Click => LookupFindsFirst(LabelTable, "click", 0);
    case Type => LookupFindsFirst(LabelTable, "type", 1);
    case Scroll => LookupFindsFirst(LabelTable, "scroll", 2);
    case ToolCall => LookupFindsFirst(LabelTable, "tool_call", 3);
    case Navigate => LookupFindsFirst(LabelTable, "navigate", 4);
    case Wait => LookupFindsFirst(LabelTable, "wait", 5);
    case Select => LookupFindsFirst(LabelTable, "select", 6);
    case Hover => LookupFindsFirst(LabelTable, "hover", 7);
    case KeyPress => LookupFindsFirst(LabelTable, "key_press", 8);
  }


  /** The lookup returns the label of the first entry with the key. */
  lemma {:induction false} LookupFindsFirst(table: seq<(string, string)>, key: string, k: int)
    requires 0 <= k < |table| && table[k].0 == key
    requires forall j :: 0 <= j < k ==> table[j].0 != key
    ensures Lookup(table, key) == Some(table[k].1)
  {
    if k > 0 {
      LookupFindsFirst(table[1..], key, k - 1);
    }
  }

  /** Any string that is not one of the nine type strings is its own label. */
  lemma UnknownTypeUnchanged(s: string)
    requires forall t: ActionType :: s != TypeName(t)
    ensures ActionLabel(s) == s
  {
  }

  /** Different tags get different labels. */
  lemma LabelsDistinct(a: ActionType, b: ActionType)
    requires a != b
    ensures ActionLabel(TypeName(a)) != ActionLabel(TypeName(b))
  {
    LabelOfEveryType(a);
    LabelOfEveryType(b);
  }

  // Decimal rendering of the integers a template literal interpolates.

  function DigitChar(d: nat): (c: char)
    requires d < 10
    ensures '0' <= c <= '9' && (c as int) - ('0' as int) == d
  {
    (('0' as int) + d) as char
  }

  predicate IsDigits(s: string) {
    forall i :: 0 <= i < |s| ==> '0' <= s[i] <= '9'
  }

  /** The decimal digits of `n`, most significant first, with no leading zero. */
  function NatToString(n: nat): (s: string)
    ensures |s| >= 1 && IsDigits(s)
    ensures |s| > 1 ==> s[0] != '0'
    decreases n
  {
    if n < 10 then [DigitChar(n)] else NatToString(n / 10) + [DigitChar(n % 10)]
  }

  /** The value of a string of decimal digits. */
  function DigitsValue(s: string): nat
    requires IsDigits(s)
  {
    if s == [] then 0
    else DigitsValue(s[..|s| - 1]) * 10 + ((s[|s| - 1] as int) - ('0' as int))
  }

  /** Reading the digits back gives the number. */
  lemma {:induction false} NatToStringRoundTrip(n: nat)
    ensures DigitsValue(NatToString(n)) == n
    decreases n
  {
    if n >= 10 {
      NatToStringRoundTrip(n / 10);
      var s := NatToString(n);
      assert s[..|s| - 1] == NatToString(n / 10);
    }
  }

  /** A JavaScript integer as a template literal writes it. */
  function IntToString(i: int): (s: string)
    ensures |s| >= 1
    ensures s[0] == '-' <==> i < 0
  {
    if i < 0 then "-" + NatToString(-i) else NatToString(i)
  }

  /** The integer a rendered integer denotes. */
  function ParseInt(s: string): Option<int> {
    if |s| >= 2 && s[0] == '-' && IsDigits(s[1..]) then Some(-(DigitsValue(s[1..]) as int))
    else if |s| >= 1 && IsDigits(s) then Some(DigitsValue(s))
    else None
  }

  /** Rendering loses nothing: the string reads back as the same integer. */
  lemma IntToStringRoundTrip(i: int)
    ensures ParseInt(IntToString(i)) == Some(i)
  {
    if i < 0 {
      NegativeRoundTrip(-i);
    } else {
      NatToStringRoundTrip(i);
      ParseDigits(NatToString(i));
    }
  }

  lemma NegativeRoundTrip(n: nat)
    requires n > 0
    ensures ParseInt("-" + NatToString(n)) == Some(-(n as int))
  {
    NatToStringRoundTrip(n);
    ParseNegative(NatToString(n));
  }

  lemma ParseNegative(t: string)
    requires |t| >= 1 && IsDigits(t)
    ensures ParseInt("-" + t) == Some(-(DigitsValue(t) as int))
  {
    assert ("-" + t)[1..] == t;
  }

  lemma ParseDigits(t: string)
    requires |t| >= 1 && IsDigits(t)
    ensures ParseInt(t) == Some(DigitsValue(t))
  {
    assert t[0] != '-';
  }


  /** JavaScript truthiness of an optional string: present and non-empty. */
  predicate Truthy(o: Option<string>) {
    o.Some? && o.value != ""
  }

  function DirectionName(d: Direction): string {
    match d
    case Up => "up"
    case Down => "down"
    case Left => "left"
    case Right => "right"
  }

  function Quoted(s: string): string {
    "\"" + s + "\""
  }

  /** The words a formatted description of each kind begins with; empty for the fallback kinds. */
  function Verb(t: ActionType): string {
    match t
    case Click => "Click at ("
    case Type => "Type \""
    case Scroll => "Scroll "
    case ToolCall => "Call "
    case Navigate => "Navigate to "
    case Wait => "Wait "
    case _ => ""
  }

  /**
   * The one-line description of an action. The JSON serialisation used for
   * tool arguments and for the fallback branch is a parameter, because it is
   * the host's `JSON.stringify`. Select, hover and key-press actions read as
   * their serialisation.
   */
  function FormatActionDetails(action: AgentAction,
                               stringify: AgentAction -> string,
                               stringifyArgs: ToolArguments -> string): (r: string)
    ensures action.Tag() in {Select, Hover, KeyPress} ==> r == stringify(action)
  {
    match action
    case ClickAction(_, c, element, _) =>
      "Click at (" + IntToString(c.x) + ", " + IntToString(c.y) + ")"
        + (if Truthy(element) then " on " + Quoted(element.value) else "")
    case TypeAction(_, text, element) =>
      "Type " + Quoted(text) + (if Truthy(element) then " into " + Quoted(element.value) else "")
    case ScrollAction(_, direction, amount, _) =>
      "Scroll " + DirectionName(direction) + " by " + IntToString(amount) + "px"
    case NavigateAction(_, url) =>
      "Navigate to " + url
    case ToolCallAction(_, toolName, arguments, _) =>
      "Call " + toolName + "(" + stringifyArgs(arguments) + ")"
    case WaitAction(_, duration, condition) =>
      "Wait " + IntToString(duration) + "ms"
        + (if Truthy(condition) then " for " + Quoted(condition.value) else "")
    case _ => stringify(action)
  }

  predicate StartsWith(s: string, prefix: string) {
    |prefix| <= |s| && s[..|prefix|] == prefix
  }

  predicate EndsWith(s: string, suffix: string) {
    |suffix| <= |s| && s[|s| - |suffix|..] == suffix
  }

  /** How a description built as a head and a tail begins and ends. */
  lemma Joined(head: string, tail: string)
    requires |head| > 0
    ensures StartsWith(head + tail, head)
    ensures EndsWith(head + tail, tail)
    ensures (head + tail)[|head + tail| - 1] == if tail == [] then head[|head| - 1] else tail[|tail| - 1]
  {
    assert (head + tail)[..|head|] == head;
    assert (head + tail)[|head + tail| - |tail|..] == tail;
  }

  /** Every kind but the three fallback kinds begins with its own words. */
  lemma FormatBeginsWithVerb(action: AgentAction, stringify: AgentAction -> string, stringifyArgs: ToolArguments -> string)
    requires action.Tag() !in {Select, Hover, KeyPress}
    ensures StartsWith(FormatActionDetails(action, stringify, stringifyArgs), Verb(action.Tag()))
  {
    var r := FormatActionDetails(action, stringify, stringifyArgs);
    var verb := Verb(action.Tag());
    match action
    case ClickAction(_, _, _, _) =>
      assert r == verb + r[|verb|..];
    case TypeAction(_, text, _) =>
      assert r == verb + r[|verb|..];
    case ScrollAction(_, _, _, _) =>
      assert r == verb + r[|verb|..];
    case NavigateAction(_, _) =>
      assert r == verb + r[|verb|..];
    case ToolCallAction(_, _, _, _) =>
      assert r == verb + r[|verb|..];
    case WaitAction(_, _, _) =>
      assert r == verb + r[|verb|..];
  }

  /**
   * A click reads "Click at (x, y)", and names its element in quotes at the
   * end exactly when the element is given and non-empty.
   */
  lemma ClickFormat(action: AgentAction, stringify: AgentAction -> string, stringifyArgs: ToolArguments -> string)
    requires action.ClickAction?
    ensures var r := FormatActionDetails(action, stringify, stringifyArgs);
      && StartsWith(r, "Click at (" + IntToString(action.coordinates.x) + ", " + IntToString(action.coordinates.y) + ")")
      && (r[|r| - 1] == '"' <==> Truthy(action.element))
      && (Truthy(action.element) ==> EndsWith(r, " on \"" + action.element.value + "\""))
    ensures FormatActionDetails(action, stringify, stringifyArgs)
         == "Click at (" + IntToString(action.coordinates.x) + ", " + IntToString(action.coordinates.y) + ")"
            + (if Truthy(action.element) then " on \"" + action.element.value + "\"" else "")
  {
    var xs, ys := IntToString(action.coordinates.x), IntToString(action.coordinates.y);
    var head := "Click at (" + xs + ", " + ys + ")";
    assert head[|head| - 1] == ')';
    if Truthy(action.element) {
      var tail := " on " + Quoted(action.element.value);
      assert tail == " on \"" + action.element.value + "\"";
      assert FormatActionDetails(action, stringify, stringifyArgs) == head + tail;
      Joined(head, tail);
    } else {
      assert FormatActionDetails(action, stringify, stringifyArgs) == head + "";
      Joined(head, "");
    }
  }

  /**
   * Typing reads 'Type "text"', followed by the element in quotes exactly
   * when the element is given and non-empty.
   */
  lemma TypeFormat(action: AgentAction, stringify: AgentAction -> string, stringifyArgs: ToolArguments -> string)
    requires action.TypeAction?
    ensures var r := FormatActionDetails(action, stringify, stringifyArgs);
      && StartsWith(r, "Type \"" + action.text + "\"")
      && (|r| > |"Type \"" + action.text + "\""| <==> Truthy(action.element))
      && (Truthy(action.element) ==> EndsWith(r, " into \"" + action.element.value + "\""))
    ensures FormatActionDetails(action, stringify, stringifyArgs)
         == "Type \"" + action.text + "\""
            + (if Truthy(action.element) then " into \"" + action.element.value + "\"" else "")
  {
    var head := "Type " + Quoted(action.text);
    assert head == "Type \"" + action.text + "\"";
    if Truthy(action.element) {
      var tail := " into " + Quoted(action.element.value);
      assert tail == " into \"" + action.element.value + "\"";
      assert FormatActionDetails(action, stringify, stringifyArgs) == head + tail;
      Joined(head, tail);
    } else {
      assert FormatActionDetails(action, stringify, stringifyArgs) == head + "";
      Joined(head, "");
    }
  }

  /**
   * A wait reads "Wait <n>ms", and names its condition in quotes at the end
   * exactly when the condition is given and non-empty.
   */
  lemma WaitFormat(action: AgentAction, stringify: AgentAction -> string, stringifyArgs: ToolArguments -> string)
    requires action.WaitAction?
    ensures var r := FormatActionDetails(action, stringify, stringifyArgs);
      && StartsWith(r, "Wait " + IntToString(action.duration) + "ms")
      && (r[|r| - 1] == '"' <==> Truthy(action.condition))
      && (Truthy(action.condition) ==> EndsWith(r, " for \"" + action.condition.value + "\""))
    ensures FormatActionDetails(action, stringify, stringifyArgs)
         == "Wait " + IntToString(action.duration) + "ms"
            + (if Truthy(action.condition) then " for \"" + action.condition.value + "\"" else "")
  {
    var head := "Wait " + IntToString(action.duration) + "ms";
    assert head[|head| - 1] == 's';
    if Truthy(action.condition) {
      var tail := " for " + Quoted(action.condition.value);
      assert tail == " for \"" + action.condition.value + "\"";
      assert FormatActionDetails(action, stringify, stringifyArgs) == head + tail;
      Joined(head, tail);
    } else {
      assert FormatActionDetails(action, stringify, stringifyArgs) == head + "";
      Joined(head, "");
    }
  }

  /**
   * A scroll reads "Scroll <direction> by <n>px" and never names its element:
   * two scrolls with the same direction and amount read the same.
   */
  lemma ScrollFormat(action: AgentAction, other: AgentAction,
                     stringify: AgentAction -> string, stringifyArgs: ToolArguments -> string)
    requires action.ScrollAction? && other.ScrollAction?
    requires other.direction == action.direction && other.amount == action.amount
    ensures var r := FormatActionDetails(action, stringify, stringifyArgs);
      && StartsWith(r, "Scroll " + DirectionName(action.direction) + " by ")
      && EndsWith(r, IntToString(action.amount) + "px")
      && r == FormatActionDetails(other, stringify, stringifyArgs)
    ensures FormatActionDetails(action, stringify, stringifyArgs)
         == "Scroll " + DirectionName(action.direction) + " by " + IntToString(action.amount) + "px"
  {
    Joined("Scroll " + DirectionName(action.direction) + " by ", IntToString(action.amount) + "px");
    assert FormatActionDetails(action, stringify, stringifyArgs)
        == ("Scroll " + DirectionName(action.direction) + " by ") + (IntToString(action.amount) + "px");
  }

  /** A navigation reads "Navigate to " and the URL, which can be read back. */
  lemma NavigateFormat(action: AgentAction, stringify: AgentAction -> string, stringifyArgs: ToolArguments -> string)
    requires action.NavigateAction?
    ensures var r := FormatActionDetails(action, stringify, stringifyArgs);
      StartsWith(r, "Navigate to ") && r[|"Navigate to "|..] == action.url
  {
  }

  /**
   * A tool call reads "Call <tool>(<serialised arguments>)": the tool name and
   * the serialised arguments can both be read back from the text.
   */
  lemma ToolCallFormat(action: AgentAction, stringify: AgentAction -> string, stringifyArgs: ToolArguments -> string)
    requires action.ToolCallAction?
    ensures var r := FormatActionDetails(action, stringify, stringifyArgs);
      var n := |"Call " + action.toolName + "("|;
      && StartsWith(r, "Call " + action.toolName + "(")
      && r[|r| - 1] == ')'
      && r[n..|r| - 1] == stringifyArgs(action.arguments)
  {
    var head := "Call " + action.toolName + "(";
    var tail := stringifyArgs(action.arguments) + ")";
    assert FormatActionDetails(action, stringify, stringifyArgs) == head + tail;
    Joined(head, tail);
    assert (head + tail)[|head|..|head + tail| - 1] == stringifyArgs(action.arguments);
  }

  /**
   * Select, hover and key-press actions have no branch of their own and fall
   * back to the serialised action; the other six never use that fallback.
   */
  lemma FallbackKinds(action: AgentAction, stringify: AgentAction -> string,
                      other: AgentAction -> string, stringifyArgs: ToolArguments -> string)
    ensures action.Tag() in {Select, Hover, KeyPress} ==>
      FormatActionDetails(action, stringify, stringifyArgs) == stringify(action)
    ensures action.Tag() !in {Select, Hover, KeyPress} ==>
      FormatActionDetails(action, stringify, stringifyArgs) == FormatActionDetails(action, other, stringifyArgs)
  {
  }

  /** The same action stamped with another time. */
  function WithTimestamp(a: AgentAction, ts: string): (b: AgentAction)
    ensures b.timestamp == ts && b.Tag() == a.Tag()
  {
    match a
    case ClickAction(_, c, e, b) => ClickAction(ts, c, e, b)
    case TypeAction(_, t, e) => TypeAction(ts, t, e)
    case ScrollAction(_, d, n, e) => ScrollAction(ts, d, n, e)
    case ToolCallAction(_, t, args, res) => ToolCallAction(ts, t, args, res)
    case NavigateAction(_, u) => NavigateAction(ts, u)
    case WaitAction(_, d, c) => WaitAction(ts, d, c)
    case SelectAction(_, e, v) => SelectAction(ts, e, v)
    case HoverAction(_, c, e) => HoverAction(ts, c, e)
    case KeyPressAction(_, k, m) => KeyPressAction(ts, k, m)
  }

  /** The description of the six formatted kinds never depends on the timestamp. */
  lemma FormatIgnoresTimestamp(action: AgentAction, timestamp: string,
                               stringify: AgentAction -> string, stringifyArgs: ToolArguments -> string)
    requires action.Tag() !in {Select, Hover, KeyPress}
    ensures FormatActionDetails(WithTimestamp(action, timestamp), stringify, stringifyArgs)
         == FormatActionDetails(action, stringify, stringifyArgs)
  {
  }
}
