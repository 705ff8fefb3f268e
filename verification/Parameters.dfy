/** The parameter store behind the two external backends. */
module Parameters {
  import opened Text
  import opened Paths
  import opened Options
  import opened Table
  import opened EntryStore

  const BACKEND_PARAMETERS := "parameterstore"
  const BACKEND_PARAMETERS_SECURE := "parameterstore_secure"

  /** The first version of a parameter is 1. */
  type Version = v: int | v >= 1 witness 1

  datatype Parameter = Parameter(value: string, secure: bool, version: Version)

  type Params = map<string, Parameter>

  /** How a parameter is referred to in the index. */
  datatype ArnStyle = ShortArn | FullArn(region: string, account: string)

  /** A value as a reader without or with permission to decrypt sees it. */
  datatype Shown = Plain(value: string) | Encrypted

  datatype Resolution =
    | Resolved(value: Shown, secure: bool)
    | NotFound
    | NotRegistered
    | ReadFailed

  /** The name that writes use. */
  function WriteName(key: string): string {
    ToLower(NormalizeKey(key))
  }

  function Arn(key: string, style: ArnStyle): string {
    var name := WriteName(key);
    match style
    case ShortArn => if HasPrefix(name, "/") then name else "/" + name
    case FullArn(region, account) =>
      "arn:aws:ssm:" + region + ":" + account + ":parameter/" + TrimPrefix(name, "/")
  }

  function NextVersion(ps: Params, name: string): Version {
    if name in ps then ps[name].version + 1 else 1
  }

  ghost predicate SameParam(a: Params, b: Params, name: string) {
    (name in a <==> name in b) && (name in a ==> a[name] == b[name])
  }

  /** The entry is held under its name, one version on from what was there before. */
  ghost predicate Holds(before: Params, after: Params, e: Entry) {
    var name := WriteName(e.key);
    && name in after && after[name].value == e.value && after[name].secure == e.secure
    && after[name].version == if name in before then before[name].version + 1 else 1
  }

  /** x leads a reader from the index to the parameter p of entry e: it names it, carries its
      version, and is stamped with the backend that can read it; all else is as in e. */
  predicate LeadsTo(x: Entry, e: Entry, p: Parameter, style: ArnStyle) {
    && x.key == e.key && x.secure == e.secure && x.value == Arn(e.key, style)
    && x.metadata.version == p.version
    && x.metadata.backend == (if p.secure then BACKEND_PARAMETERS_SECURE else BACKEND_PARAMETERS)
    && x.metadata.(version := 0, backend := "") == e.metadata.(version := 0, backend := "")
  }

  /** The entry that goes to the index once its value is in the parameter store. */
  function IndexForm(e: Entry, version: Version, style: ArnStyle): Entry {
    e.(value := Arn(e.key, style),
       metadata := e.metadata.(
         version := version,
         backend := if e.secure then BACKEND_PARAMETERS_SECURE else BACKEND_PARAMETERS))
  }

  function SendResult(ps: Params, e: Entry, style: ArnStyle): Result {
    var v := NextVersion(ps, WriteName(e.key));
    Result(e.key, if v == 1 then Created else Updated, None, Some(IndexForm(e, v, style)))
  }

  const PUT_FAILED := "put parameter failed"

  function SendFailure(e: Entry): Result {
    Result(e.key, Unset, Some(PUT_FAILED), None)
  }

  class ParameterService {
    var params: Params
    ghost var refused: nat

    constructor (initial: Params)
      ensures params == initial && refused == 0
    {
      params, refused := initial, 0;
    }

    /** Writes one entry. A failing call may have reached the store all the same. Reading the
        key afterwards shows what was written if writes and reads give it the same name, and
        what was there before if not. */
    method Send(e: Entry, style: ArnStyle, fails: bool) returns (res: Result)
      modifies this
      ensures forall name :: name != WriteName(e.key) ==> SameParam(old(params), params, name)
      ensures refused == old(refused) + if fails then 1 else 0
      ensures res.key == e.key
      ensures fails ==> res.action == Unset && res.err == Some(PUT_FAILED) && res.output == None
      ensures fails ==> Holds(old(params), params, e) || SameParam(old(params), params, WriteName(e.key))
      ensures !fails ==> Holds(old(params), params, e) && res.err == None
      ensures !fails ==> res.action == if WriteName(e.key) in old(params) then Updated else Created
      ensures !fails ==> res.output.Some? && LeadsTo(res.output.value, e, params[WriteName(e.key)], style)
      ensures !fails ==>
                forall decrypt :: ReadParam(params, e.key, decrypt) ==
                  if WriteName(e.key) == NormalizeKey(e.key) then Revealed(e.value, e.secure, decrypt)
                  else ReadParam(old(params), e.key, decrypt)
    {
      var name := WriteName(e.key);
      var version := NextVersion(params, name);
      var lost: bool := *;
      if !(fails && lost) {
        params := params[name := Parameter(e.value, e.secure, version)];
      }
      if fails {
        refused := refused + 1;
        return Result(e.key, Unset, Some(PUT_FAILED), None);
      }
      var indexed := IndexForm(e, version, style);
      res := Result(e.key, if version == 1 then Created else Updated, None, Some(indexed));
    }

    /** Removes the parameter under the name that reads use; that it was not there is no
        error, and a failing call may have removed it all the same. */
    method Remove(key: string) returns (err: bool)
      modifies this
      ensures refused == old(refused) + if err then 1 else 0
      ensures forall name :: name != NormalizeKey(key) ==> SameParam(old(params), params, name)
      ensures forall decrypt ::
                ReadParam(params, key, decrypt) == NotFound ||
                (err && ReadParam(params, key, decrypt) == ReadParam(old(params), key, decrypt))
      ensures NormalizeKey(key) !in params || (err && params == old(params))
    {
      err := *;
      refused := refused + if err then 1 else 0;
      var lost: bool := *;
      if !(err && lost) {
        params := params - {NormalizeKey(key)};
      }
    }

    /** Reads the parameter of a key. */
    method Read(key: string, decrypt: bool) returns (r: Resolution)
      modifies this`refused
      ensures refused == old(refused) + if r == ReadFailed then 1 else 0
      ensures r != ReadFailed ==> r == ReadParam(params, key, decrypt)
    {
      var fails: bool := *;
      r := if fails then ReadFailed else ReadParam(params, key, decrypt);
      refused := refused + if fails then 1 else 0;
    }
  }

  /** The parameters of a successful removal. */
  lemma RemovedExactly(before: Params, after: Params, key: string)
    requires forall name :: name != NormalizeKey(key) ==> SameParam(before, after, name)
    requires NormalizeKey(key) !in after
    ensures after == RemoveParam(before, key)
  {
    forall name ensures name in after <==> name in RemoveParam(before, key) {
      assert name != NormalizeKey(key) ==> SameParam(before, after, name);
    }
    forall name | name in after ensures after[name] == RemoveParam(before, key)[name] {
      assert SameParam(before, after, name);
    }
  }

  function RemoveParam(ps: Params, key: string): Params {
    ps - {NormalizeKey(key)}
  }

  /** What a value looks like to a reader. */
  function Revealed(value: string, secure: bool, decrypt: bool): Resolution {
    Resolved(if secure && !decrypt then Encrypted else Plain(value), secure)
  }

  /** What reading a parameter shows; only the secure backend asks for decryption. */
  function ReadParam(ps: Params, key: string, decrypt: bool): Resolution {
    var name := NormalizeKey(key);
    if name !in ps then NotFound
    else Revealed(ps[name].value, ps[name].secure, decrypt)
  }
}
