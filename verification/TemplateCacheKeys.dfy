/**
 The cache-key log of templates: `ExtraCache` in `axbi/jinja_context.py`.

 A template is a deterministic strategy: from the answers so far it either finishes with a text or makes one more
 accessor call. What the accessors read is the environment; `json.dumps` on a list of strings is injective.
 */
module TemplateCacheKeys {
  import opened Optional

  datatype Key = IntKey(n: int) | TextKey(text: string) | NullKey | JsonKey(list: seq<string>)

  datatype Answer = Null | Number(n: int) | Text(text: string) | List(list: seq<string>) | Raw(key: Key)

  datatype Call =
    | CurrentUserId(add: bool) | CurrentUsername(add: bool) | CurrentUserEmail(add: bool) | CurrentUserRoles(add: bool)
    | CurrentUserRlsRules | CacheKeyWrapper(key: Key)
    | UrlParam(param: string, default: Option<string>, add: bool, escape: bool)
  {
    /** The call is meant to be part of the cache key. */
    predicate Adds() {
      match this
      case CurrentUserRlsRules => true
      case CacheKeyWrapper(_) => true
      case _ => add
    }
  }

  /** `roles` and `rules` are sorted; no roles stands for a failed look-up, no rules for no table. */
  datatype Environment = Environment(
    userId: Option<int>, username: Option<string>, email: Option<string>,
    roles: Option<seq<string>>, rules: Option<seq<string>>,
    args: map<string, string>, formParams: map<string, Option<string>>,
    quote: Option<string -> string>)

  datatype Step = Done(text: string) | Ask(call: Call)

  type Template = seq<Answer> -> Step

  // ---------------------------------------------------------------- what a call answers and logs

  function TextAnswer(s: Option<string>): Answer { if s.Some? && s.value != "" then Text(s.value) else Null }

  function ListAnswer(l: Option<seq<string>>): Answer { if l.Some? && l.value != [] then List(l.value) else Null }

  function ParamValue(e: Environment, param: string, default: Option<string>, escape: bool): Option<string> {
    var found := if param in e.args && e.args[param] != "" then Some(e.args[param])
                 else if param in e.formParams then e.formParams[param] else default;
    if found.Some? && found.value != "" && escape && e.quote.Some? then Some(e.quote.value(found.value)) else found
  }

  function AnswerOf(e: Environment, c: Call): Answer {
    match c
    case CurrentUserId(_) => if e.userId.Some? && e.userId.value != 0 then Number(e.userId.value) else Null
    case CurrentUsername(_) => TextAnswer(e.username)
    case CurrentUserEmail(_) => TextAnswer(e.email)
    case CurrentUserRoles(_) => ListAnswer(e.roles)
    case CurrentUserRlsRules => ListAnswer(e.rules)
    case CacheKeyWrapper(key) => Raw(key)
    case UrlParam(param, default, _, escape) =>
      var v := ParamValue(e, param, default, escape);
      if v.Some? then Text(v.value) else Null
  }

  function KeyOf(a: Answer): Key {
    match a
    case Null => NullKey
    case Number(n) => IntKey(n)
    case Text(s) => TextKey(s)
    case List(l) => JsonKey(l)
    case Raw(key) => key
  }

  /** What one call adds to the log: its answer, except that the user accessors do not log an empty one. */
  function LogOf(e: Environment, c: Call): seq<Key> {
    if !c.Adds() || (AnswerOf(e, c).Null? && !c.UrlParam?) then [] else [KeyOf(AnswerOf(e, c))]
  }

  /** Where a parameter's value comes from: a request value that is not empty, else the form's if it has one, null or not,
      else the default. It is quoted where it was asked to be, there is a dialect and it is not empty. */
  lemma ParamValueIs(e: Environment, param: string, default: Option<string>, escape: bool)
    ensures var v, raw := ParamValue(e, param, default, escape), ParamValue(e, param, default, false);
            && (param in e.args && e.args[param] != "" ==> raw == Some(e.args[param]))
            && (!(param in e.args && e.args[param] != "") && param in e.formParams ==> raw == e.formParams[param])
            && (!(param in e.args && e.args[param] != "") && param !in e.formParams ==> raw == default)
            && (raw.Some? && raw.value != "" && escape && e.quote.Some? ==> v == Some(e.quote.value(raw.value)))
            && (!(raw.Some? && raw.value != "" && escape && e.quote.Some?) ==> v == raw)
  {
  }

  /** Each accessor answers what the environment says of the user, and nothing for nothing. */
  lemma AnswersAreTheUsers(e: Environment, add: bool, a: Answer)
    ensures AnswerOf(e, CurrentUserId(add)) == a
            <==> if e.userId.Some? && e.userId.value != 0 then a == Number(e.userId.value) else a == Null
    ensures AnswerOf(e, CurrentUsername(add)) == a
            <==> if e.username.Some? && e.username.value != "" then a == Text(e.username.value) else a == Null
    ensures AnswerOf(e, CurrentUserEmail(add)) == a
            <==> if e.email.Some? && e.email.value != "" then a == Text(e.email.value) else a == Null
    ensures AnswerOf(e, CurrentUserRoles(add)) == a
            <==> if e.roles.Some? && e.roles.value != [] then a == List(e.roles.value) else a == Null
    ensures AnswerOf(e, CurrentUserRlsRules) == a
            <==> if e.rules.Some? && e.rules.value != [] then a == List(e.rules.value) else a == Null
  {
  }

  /** What is logged: nothing where it was asked not to; a parameter even when null; the user's data unless empty, lists
      as one key. */
  lemma LoggedKeys(e: Environment, add: bool)
    ensures LogOf(e, CurrentUserId(add)) ==
            if add && e.userId.Some? && e.userId.value != 0 then [IntKey(e.userId.value)] else []
    ensures LogOf(e, CurrentUsername(add)) ==
            if add && e.username.Some? && e.username.value != "" then [TextKey(e.username.value)] else []
    ensures LogOf(e, CurrentUserEmail(add)) ==
            if add && e.email.Some? && e.email.value != "" then [TextKey(e.email.value)] else []
    ensures LogOf(e, CurrentUserRoles(add)) ==
            if add && e.roles.Some? && e.roles.value != [] then [JsonKey(e.roles.value)] else []
    ensures LogOf(e, CurrentUserRlsRules) ==
            if e.rules.Some? && e.rules.value != [] then [JsonKey(e.rules.value)] else []
    ensures forall key :: LogOf(e, CacheKeyWrapper(key)) == [key]
    ensures forall param, default, escape ::
              LogOf(e, UrlParam(param, default, add, escape)) ==
              if !add then []
              else match ParamValue(e, param, default, escape)
                   case None => [NullKey]
                   case Some(v) => [TextKey(v)]
  {
  }

  /** A logged key determines the answer to its call. */
  lemma LogDeterminesAnswer(d: Environment, e: Environment, c: Call)
    requires c.Adds() && LogOf(d, c) == LogOf(e, c)
    ensures AnswerOf(d, c) == AnswerOf(e, c)
  {
  }

  // ---------------------------------------------------------------- renders

  datatype Outcome = OutOfFuel | Rendered(text: string, answers: seq<Answer>, log: seq<Key>)

  /** A render that makes at most `fuel` more calls after the answers `history`. */
  function Render(t: Template, e: Environment, fuel: nat, history: seq<Answer>): Outcome {
    match t(history)
    case Done(text) => Rendered(text, history, [])
    case Ask(c) =>
      if fuel == 0 then OutOfFuel
      else
        match Render(t, e, fuel - 1, history + [AnswerOf(e, c)])
        case OutOfFuel => OutOfFuel
        case Rendered(text, answers, log) => Rendered(text, answers, LogOf(e, c) + log)
  }

  /** While the two renders agree, every call is meant for the key and logs in both or in neither. */
  ghost predicate Aligned(t: Template, d: Environment, e: Environment, fuel: nat, history: seq<Answer>) {
    match t(history)
    case Done(_) => true
    case Ask(c) =>
      && c.Adds() && (LogOf(d, c) == [] <==> LogOf(e, c) == [])
      && (fuel > 0 && AnswerOf(d, c) == AnswerOf(e, c) ==> Aligned(t, d, e, fuel - 1, history + [AnswerOf(d, c)]))
  }

  /** Two aligned renders that leave equal logs received the same answers and produce the same text. */
  lemma {:induction false} EqualLogsEqualText(t: Template, d: Environment, e: Environment, fuel: nat, history: seq<Answer>)
    requires Render(t, d, fuel, history).Rendered? && Render(t, e, fuel, history).Rendered?
    requires Aligned(t, d, e, fuel, history)
    requires Render(t, d, fuel, history).log == Render(t, e, fuel, history).log
    ensures Render(t, d, fuel, history) == Render(t, e, fuel, history)
  {
    match t(history)
    case Done(_) =>
    case Ask(c) =>
      var p, q := LogOf(d, c), LogOf(e, c);
      var x := Render(t, d, fuel - 1, history + [AnswerOf(d, c)]).log;
      var y := Render(t, e, fuel - 1, history + [AnswerOf(e, c)]).log;
      assert |p| == |q| <= 1 && p + x == q + y;
      assert p == (p + x)[..|p|] && q == (q + y)[..|q|];
      assert x == (p + x)[|p|..] && y == (q + y)[|q|..];
      LogDeterminesAnswer(d, e, c);
      EqualLogsEqualText(t, d, e, fuel - 1, history + [AnswerOf(d, c)]);
  }

  /** Every call of the render is meant for the key. */
  ghost predicate EveryCallAdds(t: Template, e: Environment, fuel: nat, history: seq<Answer>) {
    match t(history)
    case Done(_) => true
    case Ask(c) => c.Adds() && (fuel > 0 ==> EveryCallAdds(t, e, fuel - 1, history + [AnswerOf(e, c)]))
  }

  lemma {:induction false} AnswersExtendHistory(t: Template, e: Environment, fuel: nat, history: seq<Answer>)
    requires Render(t, e, fuel, history).Rendered?
    ensures history <= Render(t, e, fuel, history).answers
  {
    match t(history)
    case Done(_) =>
    case Ask(c) =>
      AnswersExtendHistory(t, e, fuel - 1, history + [AnswerOf(e, c)]);
  }

  /** Renders that received the same answers are aligned. */
  lemma {:induction false} EqualAnswersAlign(t: Template, d: Environment, e: Environment, fuel: nat, history: seq<Answer>)
    requires Render(t, d, fuel, history).Rendered? && Render(t, e, fuel, history).Rendered?
    requires EveryCallAdds(t, d, fuel, history)
    requires Render(t, d, fuel, history).answers == Render(t, e, fuel, history).answers
    ensures Aligned(t, d, e, fuel, history)
  {
    match t(history)
    case Done(_) =>
    case Ask(c) =>
      var x, y := history + [AnswerOf(d, c)], history + [AnswerOf(e, c)];
      AnswersExtendHistory(t, d, fuel - 1, x);
      AnswersExtendHistory(t, e, fuel - 1, y);
      var answers := Render(t, d, fuel, history).answers;
      assert AnswerOf(d, c) == x[|history|] == answers[|history|] == y[|history|] == AnswerOf(e, c);
      EqualAnswersAlign(t, d, e, fuel - 1, x);
  }

  /** When equal logs mean equal answers, and with them equal texts: exactly when, as long as the two renders agree,
      each accessor called had an answer to log in both environments or in neither. */
  lemma EqualLogsMeanEqualAnswersIff(t: Template, d: Environment, e: Environment, fuel: nat)
    requires Render(t, d, fuel, []).Rendered? && Render(t, e, fuel, []).Rendered?
    requires EveryCallAdds(t, d, fuel, [])
    requires Render(t, d, fuel, []).log == Render(t, e, fuel, []).log
    ensures Render(t, d, fuel, []).answers == Render(t, e, fuel, []).answers <==> Aligned(t, d, e, fuel, [])
    ensures Aligned(t, d, e, fuel, []) ==> Render(t, d, fuel, []).text == Render(t, e, fuel, []).text
  {
    if Aligned(t, d, e, fuel, []) {
      EqualLogsEqualText(t, d, e, fuel, []);
    } else if Render(t, d, fuel, []).answers == Render(t, e, fuel, []).answers {
      EqualAnswersAlign(t, d, e, fuel, []);
    }
  }

  /** Every call of the render leaves its key. */
  ghost predicate EveryCallLogs(t: Template, e: Environment, fuel: nat, history: seq<Answer>) {
    match t(history)
    case Done(_) => true
    case Ask(c) => LogOf(e, c) != [] && (fuel > 0 ==> EveryCallLogs(t, e, fuel - 1, history + [AnswerOf(e, c)]))
  }

  lemma {:induction false} LoggingRendersAlign(t: Template, d: Environment, e: Environment, fuel: nat, history: seq<Answer>)
    requires EveryCallLogs(t, d, fuel, history) && EveryCallLogs(t, e, fuel, history)
    ensures Aligned(t, d, e, fuel, history)
  {
    match t(history)
    case Done(_) =>
    case Ask(c) =>
      if fuel > 0 && AnswerOf(d, c) == AnswerOf(e, c) {
        LoggingRendersAlign(t, d, e, fuel - 1, history + [AnswerOf(d, c)]);
      }
  }

  /** The promise of the cache-key log: where every call logs, equal logs mean equal texts. */
  lemma EqualLogsOfLoggingRenders(t: Template, d: Environment, e: Environment, fuel: nat)
    requires Render(t, d, fuel, []).Rendered? && Render(t, e, fuel, []).Rendered?
    requires EveryCallLogs(t, d, fuel, []) && EveryCallLogs(t, e, fuel, [])
    requires Render(t, d, fuel, []).log == Render(t, e, fuel, []).log
    ensures Render(t, d, fuel, []).text == Render(t, e, fuel, []).text
  {
    LoggingRendersAlign(t, d, e, fuel, []);
    EqualLogsEqualText(t, d, e, fuel, []);
  }

  function Shown(a: Answer): string { if a.Text? then a.text else "-" }

  /** A template that shows the user name and then the e-mail address. */
  function NameAndEmail(): Template {
    (history: seq<Answer>) =>
      if |history| == 0 then Ask(CurrentUsername(true))
      else if |history| == 1 then Ask(CurrentUserEmail(true))
      else Done(Shown(history[0]) + " " + Shown(history[1]))
  }

  lemma NameAndEmailRenders(e: Environment)
    ensures var name, email := AnswerOf(e, CurrentUsername(true)), AnswerOf(e, CurrentUserEmail(true));
            Render(NameAndEmail(), e, 2, []) ==
            Rendered(Shown(name) + " " + Shown(email), [name, email],
                     LogOf(e, CurrentUsername(true)) + (LogOf(e, CurrentUserEmail(true)) + []))
  {
    var t := NameAndEmail();
    var name, email := AnswerOf(e, CurrentUsername(true)), AnswerOf(e, CurrentUserEmail(true));
    assert [] + [name] == [name] && [name] + [email] == [name, email];
    assert Render(t, e, 0, [name, email]) == Rendered(Shown(name) + " " + Shown(email), [name, email], []);
    assert Render(t, e, 1, [name]).log == LogOf(e, CurrentUserEmail(true)) + [];
  }

  /** Silent calls break the promise: a user known by name only and one known by the same e-mail only share a log. */
  lemma SilentCallsBreakThePromise()
    ensures var d := Environment(None, Some("x"), None, None, None, map[], map[], None);
            var e := Environment(None, None, Some("x"), None, None, map[], map[], None);
            var p, q := Render(NameAndEmail(), d, 2, []), Render(NameAndEmail(), e, 2, []);
            p.Rendered? && q.Rendered? && p.log == q.log && p.text == "x -" && q.text == "- x"
  {
    NameAndEmailRenders(Environment(None, Some("x"), None, None, None, map[], map[], None));
    NameAndEmailRenders(Environment(None, None, Some("x"), None, None, map[], map[], None));
  }

  // ---------------------------------------------------------------- the accessors

  /** The log after some keys were added, if there is one. */
  function Plus(before: Option<seq<Key>>, keys: seq<Key>): Option<seq<Key>> {
    if before.None? || keys == [] then before else Some(before.value + keys)
  }

  lemma PlusPlus(before: Option<seq<Key>>, first: seq<Key>, second: seq<Key>)
    ensures Plus(Plus(before, first), second) == Plus(before, first + second)
  {
    if before.Some? {
      assert before.value + first + second == before.value + (first + second);
      assert first + [] == first && [] + second == second;
    }
  }

  class ExtraCache {
    const env: Environment
    var extraCacheKeys: Option<seq<Key>>

    constructor (env: Environment, keys: Option<seq<Key>>)
      ensures this.env == env && extraCacheKeys == keys
    {
      this.env, extraCacheKeys := env, keys;
    }

    method WrapKey(key: Key) returns (r: Key)
      modifies this
      ensures r == key && extraCacheKeys == Plus(old(extraCacheKeys), [key])
    {
      if extraCacheKeys.Some? {
        extraCacheKeys := Some(extraCacheKeys.value + [key]);
      }
      r := key;
    }

    method UserId(add: bool) returns (r: Option<int>)
      modifies this
      ensures (if r.Some? then Number(r.value) else Null) == AnswerOf(env, CurrentUserId(add))
      ensures extraCacheKeys == Plus(old(extraCacheKeys), LogOf(env, CurrentUserId(add)))
    {
      r := None;
      if env.userId.Some? && env.userId.value != 0 {
        if add {
          var _ := WrapKey(IntKey(env.userId.value));
        }
        r := env.userId;
      }
    }

    /** `current_username` and `current_user_email`. */
    method UserText(value: Option<string>, add: bool) returns (r: Option<string>)
      modifies this
      ensures (if r.Some? then Text(r.value) else Null) == TextAnswer(value)
      ensures var logged := if add && TextAnswer(value).Text? then [TextKey(value.value)] else [];
              extraCacheKeys == Plus(old(extraCacheKeys), logged)
    {
      r := None;
      if value.Some? && value.value != "" {
        if add {
          var _ := WrapKey(TextKey(value.value));
        }
        r := value;
      }
    }

    /** `current_user_roles` and `current_user_rls_rules`. */
    method UserList(value: Option<seq<string>>, add: bool) returns (r: Option<seq<string>>)
      modifies this
      ensures (if r.Some? then List(r.value) else Null) == ListAnswer(value)
      ensures var logged := if add && ListAnswer(value).List? then [JsonKey(value.value)] else [];
              extraCacheKeys == Plus(old(extraCacheKeys), logged)
    {
      r := None;
      if value.Some? && value.value != [] {
        if add {
          var _ := WrapKey(JsonKey(value.value));
        }
        r := value;
      }
    }

    method UrlParameter(param: string, default: Option<string>, add: bool, escape: bool) returns (r: Option<string>)
      modifies this
      ensures (if r.Some? then Text(r.value) else Null) == AnswerOf(env, UrlParam(param, default, add, escape))
      ensures extraCacheKeys == Plus(old(extraCacheKeys), LogOf(env, UrlParam(param, default, add, escape)))
    {
      if param in env.args && env.args[param] != "" {
        r := Some(env.args[param]);
      } else if param in env.formParams {
        r := env.formParams[param];
      } else {
        r := default;
      }
      if r.Some? && r.value != "" && escape && env.quote.Some? {
        r := Some(env.quote.value(r.value));
      }
      if add {
        var _ := WrapKey(if r.Some? then TextKey(r.value) else NullKey);
      }
    }

    /** One accessor call of a template. */
    method Perform(c: Call) returns (a: Answer)
      modifies this
      ensures a == AnswerOf(env, c) && extraCacheKeys == Plus(old(extraCacheKeys), LogOf(env, c))
    {
      a := Null;
      match c
      case CurrentUserId(add) =>
        var r := UserId(add);
        if r.Some? { a := Number(r.value); }
      case CurrentUsername(add) =>
        var r := UserText(env.username, add);
        if r.Some? { a := Text(r.value); }
      case CurrentUserEmail(add) =>
        var r := UserText(env.email, add);
        if r.Some? { a := Text(r.value); }
      case CurrentUserRoles(add) =>
        var r := UserList(env.roles, add);
        if r.Some? { a := List(r.value); }
      case CurrentUserRlsRules =>
        var r := UserList(env.rules, true);
        if r.Some? { a := List(r.value); }
      case CacheKeyWrapper(key) =>
        var r := WrapKey(key);
        a := Raw(r);
      case UrlParam(param, default, add, escape) =>
        var r := UrlParameter(param, default, add, escape);
        if r.Some? { a := Text(r.value); }
    }

    /** A render with this log, from the answers `history` on. */
    method RenderTemplate(t: Template, fuel: nat, history: seq<Answer>) returns (r: Outcome)
      modifies this
      decreases fuel
      ensures r == Render(t, env, fuel, history)
      ensures r.Rendered? ==> extraCacheKeys == Plus(old(extraCacheKeys), r.log)
    {
      match t(history)
      case Done(text) =>
        r := Rendered(text, history, []);
      case Ask(c) =>
        if fuel == 0 {
          return OutOfFuel;
        }
        var a := Perform(c);
        r := RenderTemplate(t, fuel - 1, history + [a]);
        if r.Rendered? {
          PlusPlus(old(extraCacheKeys), LogOf(env, c), r.log);
          r := r.(log := LogOf(env, c) + r.log);
        }
    }
  }
}
