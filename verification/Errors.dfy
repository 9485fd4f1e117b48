/** Coded errors: what anything raised by business code is answered as, and how one error
    travels as the cause of another. */
module Errors {
  import opened Prelude

  /** A packed message: the type it names, and its bytes. */
  datatype Any = Any(typeUrl: string, value: Bytes)

  const UNHANDLED_HANDLER_ERROR := "ROUTER_REASON_UNHANDLED_HANDLER_ERROR"
  const HANDLER_PANICKED := "ROUTER_REASON_HANDLER_PANICKED"
  const FOLD_FAILED := "ROUTER_REASON_FOLD_FAILED"
  const FOLD_FAILED_EMITTED := "ROUTER_REASON_FOLD_FAILED_EMITTED"
  const PERSISTED_EVENT_CORRUPT := "ROUTER_REASON_PERSISTED_EVENT_CORRUPT"
  const ANY_DECODE_FAILED := "ROUTER_REASON_ANY_DECODE_FAILED"
  const UNKNOWN_COMMAND_TYPE := "ROUTER_REASON_UNKNOWN_COMMAND_TYPE"
  const NO_FACT_HANDLER := "ROUTER_REASON_NO_FACT_HANDLER"
  const NO_REFUSAL_HANDLER := "ROUTER_REASON_NO_REFUSAL_HANDLER"
  const CONFLICT_RESOLUTION_UNSUPPORTED := "ROUTER_REASON_CONFLICT_RESOLUTION_UNSUPPORTED"
  const NO_HANDLERS_REGISTERED := "ROUTER_REASON_NO_HANDLERS_REGISTERED"
  const NO_COMPONENT_OF_KIND := "ROUTER_REASON_NO_COMPONENT_OF_KIND"
  const COMMAND_REFUSED := "ROUTER_REASON_COMMAND_REFUSED"

  const CAUSE := "cause"
  const SEQUENCE := "sequence"
  const TYPE_URL := "type_url"
  const STATE_TYPE_URL := "state_type_url"
  const MESSAGE_TYPE := "message_type"
  const EXT_ERR_TXT := "ext_err_txt"
  const REFUSAL_TYPE := "refusal_type"
  const COMMAND_TYPE := "command_type"

  /** A rejection's statuses: FAILED_PRECONDITION, INVALID_ARGUMENT, NOT_FOUND, ALREADY_EXISTS,
      OUT_OF_RANGE and PERMISSION_DENIED. */
  const BUSINESS: set<int> := {9, 3, 5, 6, 11, 7}

  /** A retryable bug's: UNAVAILABLE, DEADLINE_EXCEEDED and RESOURCE_EXHAUSTED. */
  const RETRYABLE: set<int> := {14, 4, 8}

  const ABORTED := 10

  type Args = map<string, string>

  /** `status` is None where the key's declared status applies. */
  datatype CodedError = CodedError(code: string, status: Option<int>, extras: Args, refusal: Option<Any>)

  /** What escapes business code: a coded error, an error it does not classify, or any
      other exception. */
  datatype Exn = Coded(error: CodedError) | Unclassified | Panic

  function Keyed(code: string, extras: Args): CodedError {
    CodedError(code, None, extras, None)
  }

  /** What follows the last slash of a type URL. */
  function TypeName(typeUrl: string): string {
    typeUrl[NameStart(typeUrl, |typeUrl|)..]
  }

  function NameStart(typeUrl: string, n: nat): (start: nat)
    requires n <= |typeUrl|
    ensures start <= n
  {
    if n == 0 || typeUrl[n - 1] == '/' then n else NameStart(typeUrl, n - 1)
  }

  /** Whatever its prefix, a type URL names its slash-free last part, and only that. */
  lemma TypeNameIgnoresPrefix(prefix: string, name: string)
    requires '/' !in name
    ensures TypeName(name) == name && TypeName(prefix + "/" + name) == name
  {
    hide NameStart;
    var whole, cut := "" + name, prefix + "/";
    assert whole == name;
    NameStartSkips("", name, |name|);
    NameStartSkips(cut, name, |name|);
    assert name[0..] == name && (cut + name)[|cut|..] == name;
  }

  lemma {:induction false} NameStartSkips(prefix: string, name: string, n: nat)
    requires n <= |name| && '/' !in name
    requires prefix == "" || prefix[|prefix| - 1] == '/'
    ensures NameStart(prefix + name, |prefix| + n) == |prefix|
  {
    if n == 0 {
    } else {
      assert (prefix + name)[|prefix| + n - 1] == name[n - 1];
      NameStartSkips(prefix, name, n - 1);
    }
  }

  /** The name argument `a` of a cause named `name` travels under. */
  function Arg(name: string, a: string): (k: string)
    ensures name <= k && |k| > |name| && k[|name| + 1..] == a
  {
    name + "." + a
  }

  function Flatten(name: string, key: string, args: Args): Args {
    map k | k in {name} + Dotted(name, args) :: if k == name then key else args[k[|name| + 1..]]
  }

  /** A wrapped cause, spelled out: its key under its name, each argument under the name, a dot
      and its own, and nothing else. */
  lemma FlattenIs(name: string, key: string, args: Args)
    ensures var wrapped := Flatten(name, key, args);
            && (forall k :: k in wrapped <==> k == name || exists a :: a in args && k == name + "." + a)
            && wrapped[name] == key
            && forall a :: a in args ==> wrapped[name + "." + a] == args[a]
  {
    forall a | a in args
      ensures Arg(name, a) in Dotted(name, args) && Arg(name, a)[|name| + 1..] == a
    {
    }
  }

  function Dotted(name: string, args: Args): (names: set<string>)
    ensures forall k :: k in names ==> |k| > |name| && k[|name| + 1..] in args
  {
    set a | a in args :: Arg(name, a)
  }

  /** The key and the arguments a wrapped cause named `name` carries. */
  function Unflatten(name: string, extras: Args): Option<(string, Args)> {
    if name !in extras then None
    else Some((extras[name], map a | a in Stems(name, extras) :: extras[Arg(name, a)]))
  }

  function Stems(name: string, extras: Args): (stems: set<string>)
    ensures forall a :: a in stems ==> Arg(name, a) in extras
  {
    set k | k in extras && |k| > |name| && Arg(name, k[|name| + 1..]) == k :: k[|name| + 1..]
  }

  // What business code raises to classify an error. A status outside those its kind may carry
  // raises a ValueError instead.

  function Rejection(key: string, status: int, args: Args): Exn {
    if status in BUSINESS then Coded(CodedError(key, Some(status), args, None)) else Panic
  }

  function TypedRefusal(refusal: Any, status: int): Exn {
    if status in BUSINESS then
      Coded(CodedError(COMMAND_REFUSED, Some(status), map[REFUSAL_TYPE := TypeName(refusal.typeUrl)], Some(refusal)))
    else Panic
  }

  function Immediate(key: string, args: Args): Exn {
    Coded(CodedError(key, Some(ABORTED), args, None))
  }

  function Bug(key: string, args: Args): Exn {
    Coded(Keyed(UNHANDLED_HANDLER_ERROR, Flatten(CAUSE, key, args)))
  }

  function RetryableBug(key: string, status: int, args: Args): Exn {
    if status in RETRYABLE then
      Coded(CodedError(UNHANDLED_HANDLER_ERROR, Some(status), Flatten(CAUSE, key, args), None))
    else Panic
  }

  function Escaped(exn: Exn): CodedError {
    match exn
    case Coded(error) => error
    case Unclassified => Keyed(UNHANDLED_HANDLER_ERROR, map[])
    case Panic => Keyed(UNHANDLED_HANDLER_ERROR, map[CAUSE := HANDLER_PANICKED])
  }

  function AsCause(exn: Exn): Args {
    var coded := Escaped(exn);
    if coded.code == UNHANDLED_HANDLER_ERROR then coded.extras
    else Flatten(CAUSE, coded.code, coded.extras)
  }

  /** The cause a raised error amounts to: a coded one's key and arguments, except that the
      router's own unhandled key stands for the cause wrapped in it, if one is. */
  function CauseOf(exn: Exn): Option<(string, Args)> {
    match exn
    case Coded(error) =>
      if error.code != UNHANDLED_HANDLER_ERROR then Some((error.code, error.extras)) else Unflatten(CAUSE, error.extras)
    case Unclassified => None
    case Panic => Some((HANDLER_PANICKED, map[]))
  }

  /** Whatever business code classifies amounts to the key and the arguments it was raised
      with; a rejection or an immediate error does exactly where its key is not the router's
      own for what is not classified. */
  lemma RaisedIsItsCause(key: string, args: Args, status: int, refusal: Any)
    ensures CauseOf(Bug(key, args)) == Some((key, args))
    ensures status in RETRYABLE ==> CauseOf(RetryableBug(key, status, args)) == Some((key, args))
    ensures CauseOf(Immediate(key, args)) == Some((key, args)) <==> key != UNHANDLED_HANDLER_ERROR
    ensures status in BUSINESS ==>
              (CauseOf(Rejection(key, status, args)) == Some((key, args)) <==> key != UNHANDLED_HANDLER_ERROR)
    ensures var told := map[REFUSAL_TYPE := TypeName(refusal.typeUrl)];
            status in BUSINESS ==> CauseOf(TypedRefusal(refusal, status)) == Some((COMMAND_REFUSED, told))
  {
    hide Flatten, Unflatten, TypeName;
    WrappedAlone(key, args);
    CauseIsSmaller(args);
    assert |COMMAND_REFUSED| < |UNHANDLED_HANDLER_ERROR|;
  }

  /** No arguments are those of a cause wrapped in them. */
  lemma CauseIsSmaller(args: Args)
    ensures Unflatten(CAUSE, args).Some? ==> Unflatten(CAUSE, args).value.1 != args
  {
    if CAUSE in args {
      var longest := Longest(args.Keys, CAUSE);
      assert |Arg(CAUSE, longest)| > |longest|;
      assert longest !in Stems(CAUSE, args);
    }
  }

  lemma {:induction false} Longest(names: set<string>, name: string) returns (longest: string)
    requires name in names
    ensures longest in names && forall k :: k in names ==> |k| <= |longest|
  {
    if names == {name} {
      longest := name;
    } else {
      assert names - {name} != {};
      var other :| other in names - {name};
      longest := Longest(names - {name}, other);
      if |longest| < |name| {
        longest := name;
      }
    }
  }

  /** What a request is answered when business code raises them: each under its own key and
      status, a status its kind may not carry as a panic. */
  lemma RaisedIsAnswered(key: string, args: Args, status: int, refusal: Any)
    ensures var unhandled := "ROUTER_REASON_UNHANDLED_HANDLER_ERROR";
            var panic := CodedError(unhandled, None, map["cause" := "ROUTER_REASON_HANDLER_PANICKED"], None);
            var business, retryable := status in {3, 5, 6, 7, 9, 11}, status in {4, 8, 14};
            && Escaped(Rejection(key, status, args)) ==
               (if business then CodedError(key, Some(status), args, None) else panic)
            && Escaped(TypedRefusal(refusal, status)) ==
               (if !business then panic
                else CodedError("ROUTER_REASON_COMMAND_REFUSED", Some(status),
                                map["refusal_type" := TypeName(refusal.typeUrl)], Some(refusal)))
            && Escaped(Immediate(key, args)) == CodedError(key, Some(10), args, None)
            && Escaped(Bug(key, args)) == CodedError(unhandled, None, Flatten("cause", key, args), None)
            && Escaped(RetryableBug(key, status, args)) ==
               (if retryable then CodedError(unhandled, Some(status), Flatten("cause", key, args), None) else panic)
  {
    hide Flatten, TypeName;
  }

  /** Arguments not named like a cause do not show in it. */
  lemma UnflattenBeside(name: string, beside: Args, extras: Args)
    requires forall k :: k in beside ==> !(name <= k)
    ensures Unflatten(name, beside + extras) == Unflatten(name, extras)
  {
    var all := beside + extras;
    StemsBeside(name, beside, extras);
    forall a | a in Stems(name, extras)
      ensures all[Arg(name, a)] == extras[Arg(name, a)]
    {
      assert name <= Arg(name, a);
    }
    assert (map a | a in Stems(name, all) :: all[Arg(name, a)]) ==
           (map a | a in Stems(name, extras) :: extras[Arg(name, a)]);
  }

  lemma StemsBeside(name: string, beside: Args, extras: Args)
    requires forall k :: k in beside ==> !(name <= k)
    ensures Stems(name, beside + extras) == Stems(name, extras)
  {
    hide Arg;
    forall k | k in beside && |k| > |name|
      ensures Arg(name, k[|name| + 1..]) != k
    {
      assert name <= Arg(name, k[|name| + 1..]);
    }
  }

  /** What travels as a raised error's cause reads back as what the error amounts to. */
  lemma AsCauseReadsBack(exn: Exn)
    ensures Unflatten(CAUSE, AsCause(exn)) == CauseOf(exn)
  {
    hide Flatten, Unflatten;
    match exn {
      case Coded(error) =>
        WrappedAlone(error.code, error.extras);
      case Unclassified => NoCause();
      case Panic => PanicsCause();
    }
  }

  lemma WrappedAlone(key: string, args: Args)
    ensures Unflatten(CAUSE, Flatten(CAUSE, key, args)) == Some((key, args))
  {
    hide Flatten, Unflatten;
    UnflattenInvertsFlatten(CAUSE, key, args, map[]);
    assert map[] + Flatten(CAUSE, key, args) == Flatten(CAUSE, key, args);
  }

  lemma NoCause()
    ensures Unflatten(CAUSE, map[]) == None
  {
  }

  lemma PanicsCause()
    ensures Unflatten(CAUSE, map[CAUSE := HANDLER_PANICKED]) == Some((HANDLER_PANICKED, map[]))
  {
    var extras := map[CAUSE := HANDLER_PANICKED];
    assert Stems(CAUSE, extras) == {};
  }

  /** Whatever arguments travel beside a wrapped cause, its key and its arguments are read
      back exactly, provided no neighbour is named as the cause or one of its arguments. */
  lemma UnflattenInvertsFlatten(name: string, key: string, args: Args, beside: Args)
    requires forall k :: k in beside ==> !(name <= k)
    ensures Unflatten(name, beside + Flatten(name, key, args)) == Some((key, args))
  {
    var extras := beside + Flatten(name, key, args);
    forall a | a in args
      ensures a in Stems(name, extras) && extras[Arg(name, a)] == args[a]
    {
      var k := Arg(name, a);
      assert k in Dotted(name, args);
      assert k in extras;
    }
    forall a | a in Stems(name, extras)
      ensures a in args
    {
      var k := Arg(name, a);
      assert k in Dotted(name, args);
    }
    assert Stems(name, extras) == args.Keys;
    assert (map a | a in Stems(name, extras) :: extras[Arg(name, a)]) == args;
    assert extras[name] == key;
  }
}
