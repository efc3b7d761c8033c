/** The strategy interface and the provider table: which operations each strategy
    class defines, what calling the others does, and how `resolveStrategy` picks a
    class from `AGENT_PROVIDER`. */
module Registry {
  import opened Wrappers
  import opened Text

  datatype Provider = GeminiProvider | ClaudeProvider | CodexProvider | OpencodeProvider | MockProvider

  /** The keys of `PROVIDERS`, in declaration order. */
  const Providers: seq<Provider> := [GeminiProvider, ClaudeProvider, CodexProvider, OpencodeProvider, MockProvider]

  function Name(p: Provider): string {
    match p
    case GeminiProvider => "gemini"
    case ClaudeProvider => "claude-code"
    case CodexProvider => "openai-codex"
    case OpencodeProvider => "opencodex"
    case MockProvider => "mock"
  }

  const Names: seq<string> := ["gemini", "claude-code", "openai-codex", "opencodex", "mock"]

  const DefaultName := "gemini"

  /** `process.env.AGENT_PROVIDER || DEFAULT_PROVIDER`. */
  function ProviderName(env: Option<string>): (name: string)
    ensures env.Some? && env.value != "" ==> name == env.value
    ensures env.None? || env.value == "" ==> name == DefaultName
  {
    match env
    case Some(v) => if v != "" then v else DefaultName
    case None => DefaultName
  }

  /** The properties every object inherits from `Object.prototype`. A plain object
      literal answers a property read with these too when it has no own key of that
      name. */
  const Inherited: set<string> := {
    "constructor", "hasOwnProperty", "isPrototypeOf", "propertyIsEnumerable",
    "toString", "toLocaleString", "valueOf", "__proto__",
    "__defineGetter__", "__defineSetter__", "__lookupGetter__", "__lookupSetter__"
  }

  /** What `PROVIDERS[name]` yields: one of the strategy classes, the inherited
      `Object` constructor, another inherited value (a built-in method, or the
      prototype itself for `__proto__`), none of which can be called with `new`, or
      `undefined`. */
  datatype Entry = Strategy(provider: Provider) | ObjectConstructor | NotConstructor | Absent

  /** `PROVIDERS[name]` on the object literal: its own keys first, then what it
      inherits. */
  function Lookup(name: string): (r: Entry)
    ensures r.Strategy? <==> name in Names
    ensures r.Strategy? ==> Name(r.provider) == name
    ensures r.Absent? <==> name !in Names && name !in Inherited
    ensures r == ObjectConstructor <==> name == "constructor"
  {
    if name == "gemini" then Strategy(GeminiProvider)
    else if name == "claude-code" then Strategy(ClaudeProvider)
    else if name == "openai-codex" then Strategy(CodexProvider)
    else if name == "opencodex" then Strategy(OpencodeProvider)
    else if name == "mock" then Strategy(MockProvider)
    else if name == "constructor" then ObjectConstructor
    else if name in Inherited then NotConstructor
    else Absent
  }

  function UnknownMessage(name: string): string {
    "Unknown AGENT_PROVIDER: '" + name + "'. Available: " + Join(Names, ", ")
  }

  /** The `TypeError` that `new` throws on a value that is not a constructor. */
  const NotConstructorMessage := "StrategyClass is not a constructor"

  /** What `resolveStrategy()` ends with: a strategy instance, the empty object that
      `new Object()` makes, or an exception. */
  datatype Resolution = Constructed(provider: Provider) | EmptyObject | Threw(message: string)

  /** `resolveStrategy()`: the class for the configured name, or the error it throws. */
  function Resolve(env: Option<string>): (r: Resolution)
    ensures r.Constructed? <==> ProviderName(env) in Names
    ensures r.Constructed? ==> Name(r.provider) == ProviderName(env)
    ensures r == EmptyObject <==> ProviderName(env) == "constructor"
    ensures ProviderName(env) !in Names && ProviderName(env) !in Inherited
      ==> r == Threw(UnknownMessage(ProviderName(env)))
    ensures ProviderName(env) in Inherited && ProviderName(env) != "constructor"
      ==> r == Threw(NotConstructorMessage)
  {
    match Lookup(ProviderName(env))
    case Strategy(p) => Constructed(p)
    case ObjectConstructor => EmptyObject
    case NotConstructor => Threw(NotConstructorMessage)
    case Absent => Threw(UnknownMessage(ProviderName(env)))
  }

  /** Every provider's own name selects it, and no two providers share a name. */
  lemma ResolveByName(p: Provider)
    ensures Resolve(Some(Name(p))) == Constructed(p)
    ensures Name(p) in Names && Providers[IndexOf(p)] == p && Names[IndexOf(p)] == Name(p)
  {
  }

  function IndexOf(p: Provider): (i: nat)
    ensures i < |Providers|
  {
    match p
    case GeminiProvider => 0
    case ClaudeProvider => 1
    case CodexProvider => 2
    case OpencodeProvider => 3
    case MockProvider => 4
  }

  /** An unset or empty `AGENT_PROVIDER` selects Gemini. */
  lemma DefaultIsGemini()
    ensures Resolve(None) == Constructed(GeminiProvider)
    ensures Resolve(Some("")) == Constructed(GeminiProvider)
  {
  }

  // ---------------------------------------------------------------------------
  // Operations

  datatype Op =
    | ExecuteAuth | SubmitAuthCode | CancelAuth | ClearCredentials | CheckAuthStatus | ExecutePrompt
    | ExecutePromptStreaming

  /** The operations `BaseStrategy` declares; each throws `Not implemented`. */
  predicate InBase(op: Op) {
    op != ExecutePromptStreaming
  }

  /** The operations a strategy class defines itself. */
  predicate Defines(p: Provider, op: Op)
    requires p != OpencodeProvider
  {
    match p
    case GeminiProvider => InBase(op)
    case MockProvider => InBase(op)
    case ClaudeProvider => op != ExecutePrompt
    case CodexProvider => op != ExecutePrompt
  }

  /** What calling an operation on an instance does: the class's own code, the base
      class's `Not implemented` error, or a `TypeError` because there is no such
      method. The Opencode class is not part of this model. */
  datatype Dispatch = Own | NotImplemented | NotAFunction | Unknown

  function Behaviour(p: Provider, op: Op): (d: Dispatch)
    ensures p == OpencodeProvider <==> d == Unknown
    ensures p != OpencodeProvider ==> (d == Own <==> Defines(p, op))
    ensures p != OpencodeProvider && !Defines(p, op) ==> (d == NotImplemented <==> InBase(op))
  {
    if p == OpencodeProvider then Unknown
    else if Defines(p, op) then Own
    else if InBase(op) then NotImplemented
    else NotAFunction
  }

  /** Every known strategy runs prompts through exactly one entry point: Gemini and
      the mock through `executePrompt`, Claude and Codex through
      `executePromptStreaming`; calling the other one throws. */
  lemma OnePromptEntry(p: Provider)
    requires p != OpencodeProvider
    ensures (Behaviour(p, ExecutePrompt) == Own) != (Behaviour(p, ExecutePromptStreaming) == Own)
    ensures Behaviour(p, ExecutePrompt) != Own ==> Behaviour(p, ExecutePrompt) == NotImplemented
    ensures Behaviour(p, ExecutePromptStreaming) != Own ==> Behaviour(p, ExecutePromptStreaming) == NotAFunction
    ensures Behaviour(p, ExecutePromptStreaming) == Own <==> p == ClaudeProvider || p == CodexProvider
  {
  }

  /** Every strategy defines its own login, code, cancel, clear and probe operations,
      so none of them reaches the base class's error. */
  lemma AuthOpsImplemented(p: Provider, op: Op)
    requires p != OpencodeProvider && InBase(op) && op != ExecutePrompt
    ensures Behaviour(p, op) == Own
  {
  }
}
