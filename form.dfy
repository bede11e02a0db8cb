/**
 * The form hook of resources/js/hooks/use-form.ts: the HTTP method parser, the error
 * bookkeeping (`setError`, `clearErrors`, `getError`, `hasErrors`) and the status fields the
 * visit callbacks of `submit` update. The router visit itself, the forwarding to the caller's
 * own callbacks and the form key are not part of this model.
 */
module Form {
  import opened Wrappers
  import Text

  // ---------------------------------------------------------------------------------------
  // parseMethod

  datatype Method = Get | Post | Put | Patch | Delete

  function MethodName(m: Method): string
  {
    match m
    case Get => "get"
    case Post => "post"
    case Put => "put"
    case Patch => "patch"
    case Delete => "delete"
  }

  /**
   * `parseMethod` (lines 226-242): the lower-cased input is matched against the five method
   * names, and anything else falls back to GET. (The five names are ASCII and no non-ASCII
   * character lower-cases into any of their letters, so ASCII lower-casing decides the match
   * exactly as `toLowerCase` does.)
   */
  function ParseMethod(s: string): (m: Method)
    ensures m == Get <==> Text.AsciiLower(s) !in {"post", "put", "patch", "delete"}
  {
    match Text.AsciiLower(s)
    case "get" => Get
    case "post" => Post
    case "put" => Put
    case "patch" => Patch
    case "delete" => Delete
    case _ => Get
  }

  /** Each method name parses to its method, whatever its letter case. */
  lemma ParseMethodNames(s: string, m: Method)
    requires Text.AsciiLower(s) == MethodName(m)
    ensures ParseMethod(s) == m
  {
  }

  /** Conversely, a non-GET result means the input was that method's name up to case. */
  lemma ParseMethodSound(s: string)
    ensures ParseMethod(s) != Get ==> Text.AsciiLower(s) == MethodName(ParseMethod(s))
  {
  }

  /** The method's own name parses back to it. */
  lemma ParseMethodRoundTrip(m: Method)
    ensures ParseMethod(MethodName(m)) == m
  {
    LowerOfLower(MethodName(m));
  }

  /** Strings without capitals are their own lower-casing. */
  lemma LowerOfLower(s: string)
    requires forall i :: 0 <= i < |s| ==> !Text.IsAsciiUpper(s[i])
    ensures Text.AsciiLower(s) == s
  {
  }

  // ---------------------------------------------------------------------------------------
  // Error bookkeeping

  /** The error bag: field name to message, own keys only. */
  type Errors = map<string, string>

  /** The two call shapes of `setError`: one field and its message, or a record of them. */
  datatype ErrorUpdate = Field(name: string, message: string) | Record(entries: Errors)

  /**
   * `setError` as evidently intended: a field call sets that field, a record call merges the
   * record over the current errors with the record's messages winning.
   */
  function ErrorsAfterSet(errors: Errors, update: ErrorUpdate): (r: Errors)
    ensures update.Field? ==> r.Keys == errors.Keys + {update.name} && r[update.name] == update.message
    ensures update.Field? ==> forall k :: k in errors && k != update.name ==> r[k] == errors[k]
    ensures update.Record? ==> r.Keys == errors.Keys + update.entries.Keys
    ensures update.Record? ==> forall k :: k in update.entries ==> r[k] == update.entries[k]
    ensures update.Record? ==> forall k :: k in errors && k !in update.entries ==> r[k] == errors[k]
  {
    match update
    case Field(name, message) => errors[name := message]
    case Record(entries) => errors + entries
  }

  /**
   * `Object.assign(target, "text")`: a string source contributes one own key per character,
   * its index in decimal, bound to that one-character string.
   */
  function CharIndexEntries(s: string): Errors
  {
    if s == [] then map[] else CharIndexEntries(s[..|s| - 1])[Text.NatToString(|s| - 1) := [s[|s| - 1]]]
  }

  /** The keys are the decimal indices of the string, each bound to its character. */
  lemma {:induction false} CharIndexEntriesSpec(s: string, i: nat)
    ensures Text.NatToString(i) in CharIndexEntries(s) <==> i < |s|
    ensures i < |s| ==> CharIndexEntries(s)[Text.NatToString(i)] == [s[i]]
  {
    if s != [] {
      var init := s[..|s| - 1];
      CharIndexEntriesSpec(init, i);
      if i != |s| - 1 {
        Text.NatToStringInjective(i, |s| - 1);
      }
    }
  }

  /**
   * `setError` as written (lines 188-195): the field shape is recognised only when the message
   * is truthy; a field call with an empty message falls through to `Object.assign`, which
   * spreads the field NAME's characters into the bag.
   */
  function ErrorsAfterSetAsWritten(errors: Errors, update: ErrorUpdate): Errors
  {
    match update
    case Field(name, message) =>
      if message != "" then errors[name := message] else errors + CharIndexEntries(name)
    case Record(entries) => errors + entries
  }

  /** Both readings agree except on a field call with an empty message. */
  lemma SetErrorReadingsAgree(errors: Errors, update: ErrorUpdate)
    requires !(update.Field? && update.message == "")
    ensures ErrorsAfterSetAsWritten(errors, update) == ErrorsAfterSet(errors, update)
  {
  }

  /** `setError("ab", "")` on an empty bag adds keys "0" and "1", and no key "ab". */
  lemma EmptyMessageSpreadsName()
    ensures var r := ErrorsAfterSetAsWritten(map[], Field("ab", ""));
      && "0" in r && r["0"] == "a" && "1" in r && r["1"] == "b" && "ab" !in r
    ensures ErrorsAfterSet(map[], Field("ab", "")) == map["ab" := ""]
  {
    CharIndexEntriesSpec("ab", 0);
    CharIndexEntriesSpec("ab", 1);
    assert Text.NatToString(0) == "0" && Text.NatToString(1) == "1";
    assert "ab" !in CharIndexEntries("ab") by {
      assert CharIndexEntries("ab") == map["0" := "a", "1" := "b"] by {
        assert "ab"[..1] == "a" && "a"[..0] == "";
      }
    }
  }

  /**
   * `clearErrors(...fields)` (lines 200-216): with no field every error goes; otherwise the
   * named fields go and every other error stays with its message.
   */
  function Cleared(errors: Errors, fields: seq<string>): (r: Errors)
    ensures fields == [] ==> r == map[]
    ensures fields != [] ==> r.Keys == errors.Keys - (set i | 0 <= i < |fields| :: fields[i])
    ensures forall k :: k in r ==> r[k] == errors[k]
  {
    map k | k in errors && |fields| > 0 && k !in fields :: errors[k]
  }

  /**
   * The `reduce` of lines 202-212 over the key listing `keys` of `errors`: each key is kept,
   * with its message, when some field was named and it is not one of them.
   */
  function ClearFold(errors: Errors, keys: seq<string>, fields: seq<string>): Errors
  {
    if keys == [] then map[]
    else
      var carry := ClearFold(errors, keys[..|keys| - 1], fields);
      var field := keys[|keys| - 1];
      if |fields| > 0 && field !in fields && field in errors then carry[field := errors[field]] else carry
  }

  /** Whatever order `Object.keys` lists the errors in, the fold yields `Cleared`. */
  lemma {:induction false} ClearFoldIsCleared(errors: Errors, keys: seq<string>, fields: seq<string>)
    requires forall i :: 0 <= i < |keys| ==> keys[i] in errors
    requires forall k :: k in errors ==> k in keys
    ensures ClearFold(errors, keys, fields) == Cleared(errors, fields)
  {
    ClearFoldPrefix(errors, keys, fields);
  }

  /** The fold over any listing keeps exactly the listed keys `Cleared` keeps. */
  lemma {:induction false} ClearFoldPrefix(errors: Errors, keys: seq<string>, fields: seq<string>)
    requires forall i :: 0 <= i < |keys| ==> keys[i] in errors
    ensures ClearFold(errors, keys, fields)
         == map k | k in errors && k in keys && |fields| > 0 && k !in fields :: errors[k]
  {
    if keys != [] {
      var init := keys[..|keys| - 1];
      ClearFoldPrefix(errors, init, fields);
      assert forall k :: k in keys <==> k in init || k == keys[|keys| - 1];
    }
  }

  /** Clearing a named field removes it; clearing the others leaves it untouched. */
  lemma ClearedKeepsUnnamed(errors: Errors, fields: seq<string>, k: string)
    requires fields != [] && k in errors
    ensures k in Cleared(errors, fields) <==> k !in fields
  {
  }

  /** What `getError(field)` (lines 177-179) reads from a bag: the field's message, if any. */
  function ErrorFor(errors: Errors, field: string): Option<string>
  {
    if field in errors then Some(errors[field]) else None
  }

  /**
   * After `setError(name, message)` with a non-empty message, `getError(name)` gives that
   * message and every other field reads as before; the corrected reading does so for any message.
   */
  lemma GetAfterSetField(errors: Errors, name: string, message: string, field: string)
    ensures message != "" ==> ErrorFor(ErrorsAfterSetAsWritten(errors, Field(name, message)), name) == Some(message)
    ensures message != "" && field != name ==>
      ErrorFor(ErrorsAfterSetAsWritten(errors, Field(name, message)), field) == ErrorFor(errors, field)
    ensures ErrorFor(ErrorsAfterSet(errors, Field(name, message)), name) == Some(message)
  {
  }

  /** After `setError(record)`, `getError` reads the record's message where it has one, else the old one. */
  lemma GetAfterSetRecord(errors: Errors, entries: Errors, field: string)
    ensures ErrorFor(ErrorsAfterSetAsWritten(errors, Record(entries)), field)
         == if field in entries then Some(entries[field]) else ErrorFor(errors, field)
  {
  }

  /**
   * After `clearErrors(...fields)`, `getError` finds nothing for a named field, nor for any
   * field when none was named; an unnamed field reads as before.
   */
  lemma GetAfterClear(errors: Errors, fields: seq<string>, field: string)
    ensures fields == [] ==> ErrorFor(Cleared(errors, fields), field) == None
    ensures field in fields ==> ErrorFor(Cleared(errors, fields), field) == None
    ensures fields != [] && field !in fields ==> ErrorFor(Cleared(errors, fields), field) == ErrorFor(errors, field)
  {
  }

  // ---------------------------------------------------------------------------------------
  // The hook's status fields

  /** An upload progress event: bytes sent and, when known, the total. */
  datatype ProgressEvent = ProgressEvent(loaded: nat, total: Option<nat>)

  /** The router's cancel token, known to the hook only by identity. */
  datatype CancelToken = CancelToken(id: nat)

  /** How long `recentlySuccessful` stays set after a success, in milliseconds (line 109). */
  const RecentlySuccessfulMillis: nat := 2000

  class FormState {
    var errors: Errors
    var hasErrors: bool
    var processing: bool
    var progress: Option<ProgressEvent>
    var wasSuccessful: bool
    var recentlySuccessful: bool
    var isMounted: bool
    var cancelToken: Option<CancelToken>
    /** `recentlySuccessfulTimeoutId.current`; never reset once a timer was started. */
    var timeoutId: Option<nat>
    /** Timers started by `onSuccess` that have neither fired nor been cleared. */
    var armedTimers: set<nat>

    /** A fresh `recentlySuccessful` always comes with `wasSuccessful`. */
    ghost predicate Valid()
      reads this
    {
      recentlySuccessful ==> wasSuccessful
    }

    /** The initial state of lines 34-45, before the mount effect runs. */
    constructor ()
      ensures Valid()
      ensures errors == map[] && !hasErrors && !processing && progress == None
      ensures !wasSuccessful && !recentlySuccessful && !isMounted
      ensures cancelToken == None && timeoutId == None && armedTimers == {}
    {
      errors, hasErrors, processing, progress := map[], false, false, None;
      wasSuccessful, recentlySuccessful, isMounted := false, false, false;
      cancelToken, timeoutId, armedTimers := None, None, {};
    }

    /** The mount effect (lines 47-52) and its cleanup. */
    method SetMounted(mounted: bool)
      modifies this`isMounted
      ensures isMounted == mounted
    {
      isMounted := mounted;
    }

    /** `getError` (lines 177-179): the field's message in the current bag, if it has one. */
    method GetError(field: string) returns (r: Option<string>)
      ensures r == ErrorFor(errors, field)
    {
      r := if field in errors then Some(errors[field]) else None;
    }

    /**
     * `setError` (lines 188-199) as written: a field call with an empty message spreads the
     * field name into the bag; `hasErrors` then reports a non-empty bag.
     */
    method SetError(update: ErrorUpdate)
      requires Valid()
      modifies this`errors, this`hasErrors
      ensures Valid()
      ensures errors == ErrorsAfterSetAsWritten(old(errors), update)
      ensures hasErrors <==> errors != map[]
    {
      errors := ErrorsAfterSetAsWritten(errors, update);
      hasErrors := errors != map[];
    }

    /** `setError` as evidently intended: a field call always sets that field. */
    method SetErrorIntended(update: ErrorUpdate)
      requires Valid()
      modifies this`errors, this`hasErrors
      ensures Valid()
      ensures errors == ErrorsAfterSet(old(errors), update)
      ensures hasErrors <==> errors != map[]
    {
      errors := ErrorsAfterSet(errors, update);
      hasErrors := errors != map[];
    }

    /** `clearErrors` (lines 200-216); `hasErrors` then reports a non-empty bag. */
    method ClearErrors(fields: seq<string>)
      requires Valid()
      modifies this`errors, this`hasErrors
      ensures Valid()
      ensures errors == Cleared(old(errors), fields)
      ensures hasErrors <==> errors != map[]
    {
      errors := Cleared(errors, fields);
      hasErrors := errors != map[];
    }

    /** `onCancelToken` (lines 59-61): the token is remembered for `cancel`. */
    method OnCancelToken(token: CancelToken)
      modifies this`cancelToken
      ensures cancelToken == Some(token)
    {
      cancelToken := Some(token);
    }

    /** `cancel` (lines 218-222): the token, if any, that receives the cancellation. */
    method Cancel() returns (cancelled: Option<CancelToken>)
      ensures cancelled == cancelToken
    {
      cancelled := cancelToken;
    }

    /**
     * `onBefore` (lines 66-72): both success flags drop, and the last started timer, if any,
     * is cleared.
     */
    method OnBefore()
      requires Valid()
      modifies this`wasSuccessful, this`recentlySuccessful, this`armedTimers
      ensures Valid()
      ensures !wasSuccessful && !recentlySuccessful
      ensures timeoutId.Some? ==> armedTimers == old(armedTimers) - {timeoutId.value}
      ensures timeoutId.None? ==> armedTimers == old(armedTimers)
    {
      wasSuccessful, recentlySuccessful := false, false;
      if timeoutId.Some? {
        armedTimers := armedTimers - {timeoutId.value};
      }
    }

    /** `onStart` (lines 77-80): the form is processing. */
    method OnStart()
      requires Valid()
      modifies this`processing
      ensures Valid()
      ensures processing
    {
      processing := true;
    }

    /** `onProgress` (lines 85-88): a present event replaces the progress, an absent one is ignored. */
    method OnProgress(event: Option<ProgressEvent>)
      requires Valid()
      modifies this`progress
      ensures Valid()
      ensures event.Some? ==> progress == event
      ensures event.None? ==> progress == old(progress)
    {
      if event.Some? {
        progress := event;
      }
    }

    /**
     * `onSuccess` (lines 94-111): when mounted, processing stops, errors are cleared and both
     * success flags are set, and a timer `timer` (the id `setTimeout` hands back, always
     * positive, so the truthiness test at line 69 sees it) is started and remembered.
     * Unmounted, nothing changes.
     */
    method OnSuccess(timer: nat)
      requires Valid()
      requires timer > 0
      modifies this
      ensures Valid()
      ensures old(isMounted) ==> !processing && progress == None && errors == map[] && !hasErrors
      ensures old(isMounted) ==> wasSuccessful && recentlySuccessful
      ensures old(isMounted) ==> timeoutId == Some(timer) && armedTimers == old(armedTimers) + {timer}
      ensures !old(isMounted) ==> errors == old(errors) && hasErrors == old(hasErrors)
      ensures !old(isMounted) ==> processing == old(processing) && progress == old(progress)
      ensures !old(isMounted) ==> wasSuccessful == old(wasSuccessful) && recentlySuccessful == old(recentlySuccessful)
      ensures !old(isMounted) ==> timeoutId == old(timeoutId) && armedTimers == old(armedTimers)
      ensures isMounted == old(isMounted) && cancelToken == old(cancelToken)
    {
      if isMounted {
        processing, progress := false, None;
        errors, hasErrors := map[], false;
        wasSuccessful, recentlySuccessful := true, true;
        timeoutId := Some(timer);
        armedTimers := armedTimers + {timer};
      }
    }

    /**
     * A timer started by `onSuccess` fires (lines 104-108): if it is still armed it disarms,
     * and `recentlySuccessful` drops when the form is mounted.
     */
    method OnTimer(timer: nat)
      requires Valid()
      modifies this`recentlySuccessful, this`armedTimers
      ensures Valid()
      ensures armedTimers == old(armedTimers) - {timer}
      ensures timer in old(armedTimers) && isMounted ==> !recentlySuccessful
      ensures !(timer in old(armedTimers) && isMounted) ==> recentlySuccessful == old(recentlySuccessful)
    {
      if timer in armedTimers {
        armedTimers := armedTimers - {timer};
        if isMounted {
          recentlySuccessful := false;
        }
      }
    }

    /**
     * `onError` (lines 117-124): when mounted, processing stops and the server's errors
     * replace the bag, with `hasErrors` set regardless of their number. Unmounted, nothing
     * changes.
     */
    method OnError(serverErrors: Errors)
      requires Valid()
      modifies this`processing, this`progress, this`errors, this`hasErrors
      ensures Valid()
      ensures old(isMounted) ==> !processing && progress == None && errors == serverErrors && hasErrors
      ensures !old(isMounted) ==> processing == old(processing) && progress == old(progress)
      ensures !old(isMounted) ==> errors == old(errors) && hasErrors == old(hasErrors)
    {
      if isMounted {
        processing, progress := false, None;
        errors, hasErrors := serverErrors, true;
      }
    }

    /** `onCancel` (lines 130-134): when mounted, processing stops and progress is cleared. */
    method OnCancel()
      requires Valid()
      modifies this`processing, this`progress
      ensures Valid()
      ensures old(isMounted) ==> !processing && progress == None
      ensures !old(isMounted) ==> processing == old(processing) && progress == old(progress)
    {
      if isMounted {
        processing, progress := false, None;
      }
    }

    /**
     * `onFinish` (lines 140-146): when mounted, processing stops and progress is cleared; the
     * cancel token is forgotten in every case.
     */
    method OnFinish()
      requires Valid()
      modifies this`processing, this`progress, this`cancelToken
      ensures Valid()
      ensures old(isMounted) ==> !processing && progress == None
      ensures !old(isMounted) ==> processing == old(processing) && progress == old(progress)
      ensures cancelToken == None
    {
      if isMounted {
        processing, progress := false, None;
      }
      cancelToken := None;
    }
  }

  /**
   * A mounted form's successful visit, callback by callback: afterwards it is idle, error
   * free and successful, and it holds no cancel token; once the success timer fires the
   * "recently" flag drops while `wasSuccessful` stays.
   */
  method SuccessfulVisit(token: CancelToken, event: ProgressEvent, timer: nat)
    returns (processing: bool, hasErrors: bool, holdsToken: bool, wasSuccessful: bool,
             recentlySuccessful: bool, stillSuccessful: bool, stillRecent: bool)
    requires timer > 0
    ensures !processing && !hasErrors && !holdsToken && wasSuccessful && recentlySuccessful
    ensures stillSuccessful && !stillRecent
  {
    var form := new FormState();
    form.SetMounted(true);
    form.OnCancelToken(token);
    form.OnBefore();
    form.OnStart();
    form.OnProgress(Some(event));
    form.OnSuccess(timer);
    form.OnFinish();
    processing, hasErrors, holdsToken := form.processing, form.hasErrors, form.cancelToken.Some?;
    wasSuccessful, recentlySuccessful := form.wasSuccessful, form.recentlySuccessful;
    form.OnTimer(timer);
    stillSuccessful, stillRecent := form.wasSuccessful, form.recentlySuccessful;
  }

  /** A mounted form's failed visit: idle, carrying the server's errors, and not successful. */
  method FailedVisit(serverErrors: Errors) returns (processing: bool, errors: Errors, hasErrors: bool, wasSuccessful: bool)
    ensures !processing && errors == serverErrors && hasErrors && !wasSuccessful
  {
    var form := new FormState();
    form.SetMounted(true);
    form.OnBefore();
    form.OnStart();
    form.OnError(serverErrors);
    form.OnFinish();
    processing, errors, hasErrors, wasSuccessful := form.processing, form.errors, form.hasErrors, form.wasSuccessful;
  }

  /**
   * `cancel` while a visit is in flight reaches the token the router handed over; once the
   * visit has finished the token is gone and `cancel` does nothing.
   */
  method CancelDuringVisit(token: CancelToken) returns (during: Option<CancelToken>, after: Option<CancelToken>)
    ensures during == Some(token) && after == None
  {
    var form := new FormState();
    form.SetMounted(true);
    form.OnBefore();
    form.OnCancelToken(token);
    form.OnStart();
    during := form.Cancel();
    form.OnFinish();
    after := form.Cancel();
  }
}
