/** The snapshot of one parameter-set fetch (parameterstore/parameter.go):
    the parameters under a base path, the lookups by name and by full path,
    and the `io.Reader` that serves the snapshot's JSON form. */
module ParamSnapshot {
  import opened Common

  /** One stored parameter; a nil `Value` is `None`. */
  datatype Parameter = Parameter(key: string, value: Option<string>, version: int, lastModifiedDate: int)
  {
    /** `GetValue`: the value, or "" for a parameter stored without one. */
    function GetValue(): (r: string)
      ensures value.None? ==> r == ""
      ensures value.Some? ==> r == value.value
    {
      match value
      case None => ""
      case Some(v) => v
    }
  }

  /** The error half of `Read`'s `(n, err)`; `NoError` is nil. */
  datatype ReadError = NoError | EOF | MarshalFailed

  /** The key/value view that is serialised: every key, with its value
      rendered by GetValue. */
  function KeyValues(parameters: map<string, Parameter>): (kv: map<string, string>)
    ensures kv.Keys == parameters.Keys
    ensures forall k :: k in kv ==> kv[k] == parameters[k].GetValue()
  {
    map k | k in parameters :: parameters[k].GetValue()
  }

  /** The smallest buffer `bytes.Buffer.ReadFrom` hands to a reader. */
  const MinRead: nat := 512

  function Min(a: int, b: int): int {
    if a <= b then a else b
  }

  class Parameters {
    /** Next byte of `bytesJSON` to hand out. */
    var readIndex: int
    /** The serialised snapshot; `None` until the first `Read`. */
    var bytesJSON: Option<seq<byte>>
    const basePath: string
    const parameters: map<string, Parameter>
    /** `json.Marshal` of a string map; `None` is a marshalling error. */
    const encode: map<string, string> -> Option<seq<byte>>

    /** The cursor stays inside the buffer, and is at 0 before the buffer
        exists. */
    ghost predicate Valid()
      reads this
    {
      0 <= readIndex &&
      (bytesJSON.None? ==> readIndex == 0) &&
      (bytesJSON.Some? ==> readIndex <= |bytesJSON.value|)
    }

    /** The bytes `Read` serves: the buffer once computed, otherwise what
        marshalling the key/value view will give. */
    ghost function Json(): Option<seq<byte>>
      reads this
    {
      if bytesJSON.Some? then bytesJSON else encode(KeyValues(parameters))
    }

    /** `NewParameters(bp, parameters)`. */
    constructor (bp: string, parameters: map<string, Parameter>, encode: map<string, string> -> Option<seq<byte>>)
      ensures Valid()
      ensures this.basePath == bp && this.parameters == parameters && this.encode == encode
      ensures readIndex == 0 && bytesJSON == None
    {
      this.basePath := bp;
      this.parameters := parameters;
      this.encode := encode;
      readIndex := 0;
      bytesJSON := None;
    }

    /** `getKeyValueMap`: builds the key/value view one parameter at a time,
        in the map's (unspecified) iteration order. */
    method KeyValueMap() returns (kv: map<string, string>)
      ensures kv.Keys == parameters.Keys
      ensures forall k :: k in kv ==> kv[k] == parameters[k].GetValue()
      ensures kv == KeyValues(parameters)
    {
      kv := map[];
      var todo := parameters.Keys;
      while todo != {}
        invariant todo <= parameters.Keys
        invariant kv.Keys == parameters.Keys - todo
        invariant forall k :: k in kv ==> kv[k] == parameters[k].GetValue()
        decreases todo
      {
        var k :| k in todo;
        kv := kv[k := parameters[k].GetValue()];
        todo := todo - {k};
      }
    }

    /** `Read(des)`: marshals the snapshot on first use, then copies as much
        of the rest of the buffer as fits into `des` and advances the cursor.
        At the end of the buffer it answers EOF and rewinds to the start. */
    method Read(des: array<byte>) returns (n: int, err: ReadError)
      requires Valid()
      modifies this`readIndex, this`bytesJSON, des
      ensures Valid()
      ensures Json() == old(Json())
      ensures old(bytesJSON).Some? ==> bytesJSON == old(bytesJSON)
      ensures old(Json()).None? ==>
        err == MarshalFailed && n == 0 && bytesJSON == None && readIndex == 0 && des[..] == old(des[..])
      ensures old(Json()).Some? ==> bytesJSON == old(Json())
      ensures old(Json()).Some? && old(readIndex) >= |old(Json()).value| ==>
        err == EOF && n == 0 && readIndex == 0 && des[..] == old(des[..])
      ensures old(Json()).Some? && old(readIndex) < |old(Json()).value| ==>
        err == NoError &&
        n == Min(des.Length, |old(Json()).value| - old(readIndex)) &&
        readIndex == old(readIndex) + n &&
        des[..n] == old(Json()).value[old(readIndex)..readIndex] &&
        des[n..] == old(des[n..])
    {
      if bytesJSON.None? {
        var kv := KeyValueMap();
        bytesJSON := encode(kv);
        if bytesJSON.None? {
          return 0, MarshalFailed;
        }
      }
      var buf := bytesJSON.value;
      if readIndex >= |buf| {
        readIndex := 0;
        return 0, EOF;
      }
      n := Min(des.Length, |buf| - readIndex);
      // copy(des, ps.bytesJSON[ps.readIndex:])
      var i := 0;
      while i < n
        modifies des
        invariant 0 <= i <= n
        invariant des[..i] == buf[readIndex..readIndex + i]
        invariant des[n..] == old(des[n..])
      {
        des[i] := buf[readIndex + i];
        i := i + 1;
      }
      readIndex := readIndex + n;
      err := NoError;
    }

    /** `GetFullPath`: the name under this snapshot's base path. */
    function GetFullPath(name: string): string {
      basePath + name
    }

    /** `GetByFullPath`: cuts the first occurrence of the base path out of
        `p` and looks the rest up. */
    function GetByFullPath(p: string): Option<Parameter> {
      Get(RemoveFirst(p, basePath))
    }

    /** `ExistsByFullPath`. */
    function ExistsByFullPath(p: string): bool {
      Exists(RemoveFirst(p, basePath))
    }

    /** `GetValueByFullPath`: "" when nothing is stored under `p`. */
    function GetValueByFullPath(p: string): (r: string)
      ensures !ExistsByFullPath(p) ==> r == ""
      ensures ExistsByFullPath(p) ==> r == parameters[RemoveFirst(p, basePath)].GetValue()
    {
      match GetByFullPath(p)
      case None => ""
      case Some(pm) => pm.GetValue()
    }

    /** `Get`: nil exactly when the name is not in the snapshot. */
    function Get(name: string): (r: Option<Parameter>)
      ensures r.None? <==> name !in parameters
      ensures r.Some? ==> r.value == parameters[name]
    {
      if name in parameters then Some(parameters[name]) else None
    }

    /** `Exists`. */
    function Exists(name: string): (r: bool)
      ensures r <==> name in parameters
    {
      name in parameters
    }

    /** `GetValueByName`: "" for a missing name or a value-less parameter. */
    function GetValueByName(name: string): (r: string)
      ensures name !in parameters ==> r == ""
      ensures name in parameters ==> r == parameters[name].GetValue()
    {
      match Get(name)
      case None => ""
      case Some(pm) => pm.GetValue()
    }

    /** `Get` and `Exists` agree: Get returns nil exactly when Exists is
        false. */
    lemma GetAgreesWithExists(name: string)
      ensures Get(name).None? <==> !Exists(name)
      ensures GetValueByName(name) == (if Exists(name) then Get(name).value.GetValue() else "")
    {
    }

    /** The full-path lookups undo GetFullPath. */
    lemma FullPathRoundTrip(name: string)
      ensures GetByFullPath(GetFullPath(name)) == Get(name)
      ensures ExistsByFullPath(GetFullPath(name)) == Exists(name)
      ensures GetValueByFullPath(GetFullPath(name)) == GetValueByName(name)
    {
      RemoveFirstOfPrefixed(basePath, name);
    }
  }

  /** `bytes.Buffer.ReadFrom(ps)`: reads `ps` in `MinRead`-sized chunks
      until EOF. The bytes collected are the rest of the snapshot's JSON
      from the cursor on (all of it for a fresh snapshot), and the cursor is
      rewound afterwards; a marshalling error is passed on as `None`. */
  method ReadAll(ps: Parameters) returns (r: Option<seq<byte>>)
    requires ps.Valid()
    modifies ps
    ensures ps.Valid()
    ensures ps.Json() == old(ps.Json())
    ensures old(ps.Json()).None? ==> r.None? && ps.bytesJSON.None?
    ensures old(ps.Json()).Some? ==>
      ps.bytesJSON == old(ps.Json()) && ps.readIndex == 0 &&
      r == Some(old(ps.Json()).value[old(ps.readIndex)..])
  {
    var des := new byte[MinRead];
    var acc: seq<byte> := [];
    ghost var json := ps.Json();
    ghost var start := ps.readIndex;
    while true
      invariant ps.Valid()
      invariant ps.Json() == json
      invariant json.Some? && ps.bytesJSON.Some? ==> start <= ps.readIndex
      invariant json.Some? && ps.bytesJSON.Some? ==> ps.bytesJSON == json
      invariant json.Some? && ps.bytesJSON.Some? ==> acc == json.value[start..ps.readIndex]
      invariant ps.bytesJSON.None? ==> acc == [] && start == 0
      invariant json.Some? ==> start <= |json.value|
      invariant des.Length == MinRead
      decreases if ps.bytesJSON.None? then (if json.Some? then |json.value| + 1 else 0)
                else |ps.bytesJSON.value| - ps.readIndex
    {
      ghost var before := ps.readIndex;
      ghost var wasNone := ps.bytesJSON.None?;
      var n, err := ps.Read(des);
      if err == MarshalFailed {
        return None;
      }
      if err == EOF {
        assert before == |json.value|;
        assert acc == json.value[start..];
        return Some(acc);
      }
      acc := acc + des[..n];
    }
  }

  /** After EOF a snapshot replays from the start: reading a fresh snapshot
      to the end twice yields its JSON both times, marshalled only once. */
  method ReadTwice(ps: Parameters) returns (first: Option<seq<byte>>, second: Option<seq<byte>>)
    requires ps.Valid() && ps.bytesJSON.None?
    modifies ps
    ensures first == second == old(ps.encode(KeyValues(ps.parameters)))
  {
    first := ReadAll(ps);
    second := ReadAll(ps);
  }
}
