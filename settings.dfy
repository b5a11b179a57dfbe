/** What the deployer's `BaseSettings` configuration classes share: a
    configuration is built from a mapping by checking each declared field for
    presence and type (fields with a default may be left out) and refusing
    keys no field declares; the error lists every field that failed.  The
    `target_host` property all SUT configurations compute is here too. */
module Settings {
  import opened Wrappers
  import opened Json
  import opened PyDict
  import Text

  /** The Python types a field is declared with, as the parsed YAML shows them. */
  datatype Kind = Chars | Flag | Number | Items | Mapping

  predicate HasKind(v: Value, kind: Kind) {
    match kind
    case Chars => v.Str?
    case Flag => v.Bool?
    case Number => v.Int?
    case Items => v.List?
    case Mapping => v.Object?
  }

  /** A declared field; `required` when it has no default. */
  datatype FieldSpec = FieldSpec(name: string, kind: Kind, required: bool)

  /** A field fails when it is required and missing, or present with a value
      of another type. */
  predicate Invalid(data: Dict<Value>, f: FieldSpec) {
    match Get(data, f.name)
    case None => f.required
    case Some(v) => !HasKind(v, f.kind)
  }

  function Names(fields: seq<FieldSpec>): (r: seq<string>)
    ensures |r| == |fields| && forall i :: 0 <= i < |fields| ==> r[i] == fields[i].name
  {
    seq(|fields|, i requires 0 <= i < |fields| => fields[i].name)
  }

  /** The names of the failing fields, in declaration order. */
  function FieldErrors(data: Dict<Value>, fields: seq<FieldSpec>): (r: seq<string>)
    ensures forall i :: 0 <= i < |fields| && Invalid(data, fields[i]) ==> fields[i].name in r
    ensures forall n :: n in r ==> exists i :: 0 <= i < |fields| && fields[i].name == n && Invalid(data, fields[i])
  {
    if fields == [] then []
    else
      var rest := FieldErrors(data, fields[1..]);
      assert forall i :: 1 <= i < |fields| ==> fields[i] == fields[1..][i - 1];
      if Invalid(data, fields[0]) then [fields[0].name] + rest else rest
  }

  /** The keys of the data that no field declares, in order. */
  function Extra(keys: seq<string>, names: seq<string>): (r: seq<string>)
    ensures forall k :: k in r <==> k in keys && k !in names
  {
    if keys == [] then []
    else if keys[0] in names then Extra(keys[1..], names)
    else [keys[0]] + Extra(keys[1..], names)
  }

  /** Every error of building from `data`: failing fields, then extra keys. */
  function Errors(data: Dict<Value>, fields: seq<FieldSpec>): (r: seq<string>)
    ensures r == [] <==> (forall i :: 0 <= i < |fields| ==> !Invalid(data, fields[i])) &&
                         (forall k :: k in Keys(data) ==> k in Names(fields))
  {
    ErrorsEmpty(data, fields);
    FieldErrors(data, fields) + Extra(Keys(data), Names(fields))
  }

  lemma ErrorsEmpty(data: Dict<Value>, fields: seq<FieldSpec>)
    ensures FieldErrors(data, fields) == [] <==> forall i :: 0 <= i < |fields| ==> !Invalid(data, fields[i])
    ensures Extra(Keys(data), Names(fields)) == [] <==> forall k :: k in Keys(data) ==> k in Names(fields)
  {
    var fe := FieldErrors(data, fields);
    if fe != [] {
      assert fe[0] in fe;
    }
    var ex := Extra(Keys(data), Names(fields));
    if ex != [] {
      assert ex[0] in ex;
    }
  }

  /** A declared field that fails is reported by name. */
  lemma InvalidReported(data: Dict<Value>, fields: seq<FieldSpec>, f: FieldSpec)
    requires f in fields && Invalid(data, f)
    ensures f.name in Errors(data, fields)
  {
  }

  /** When nothing fails, each declared field is valid. */
  lemma DeclaredValid(data: Dict<Value>, fields: seq<FieldSpec>, f: FieldSpec)
    requires f in fields && Errors(data, fields) == []
    ensures !Invalid(data, f)
  {
  }

  /** A left-out field reads as its default. */
  lemma LeftOut(data: Dict<Value>, k: string)
    requires !HasKey(data, k)
    ensures forall d :: TextOr(data, k, d) == d
    ensures forall d :: NumberOr(data, k, d) == d
    ensures forall d :: ItemsOr(data, k, d) == d
    ensures forall d :: FlagOr(data, k, d) == d
  {
  }

  /** Field accessors: the value when it has the declared type, else the default. */
  function TextOr(data: Dict<Value>, k: string, default: string): string {
    match Get<Value>(data, k)
    case Some(Str(s)) => s
    case _ => default
  }

  function NumberOr(data: Dict<Value>, k: string, default: int): int {
    match Get<Value>(data, k)
    case Some(Int(i)) => i
    case _ => default
  }

  function FlagOr(data: Dict<Value>, k: string, default: bool): bool {
    match Get<Value>(data, k)
    case Some(Bool(b)) => b
    case _ => default
  }

  function ItemsOr(data: Dict<Value>, k: string, default: seq<Value>): seq<Value> {
    match Get<Value>(data, k)
    case Some(List(items)) => items
    case _ => default
  }

  function MappingOr(data: Dict<Value>, k: string, default: Dict<Value>): Dict<Value> {
    match Get<Value>(data, k)
    case Some(Object(fs)) => fs
    case _ => default
  }

  /** `yaml.safe_load(file).get('config', {})`: the configuration section of
      a parsed file; None when the file is not a mapping or its section is
      not one, where the code fails. */
  function Section(full: Value): (r: Option<Dict<Value>>)
    ensures r.Some? ==> full.Object?
    ensures full.Object? && !HasKey(full.fields, "config") ==> r == Some([])
  {
    if !full.Object? then None
    else match Get<Value>(full.fields, "config")
      case None => Some([])
      case Some(Object(fs)) => Some(fs)
      case Some(_) => None
  }

  /** `target_host` as every SUT configuration writes it: the endpoint path
      is appended unchanged, and the slash-normalised path the property
      computes is never used. */
  function TargetUrl(host: string, endpointPath: string): string {
    "http://" + host + endpointPath
  }

  /** `target_host` built from the normalised path: a missing leading '/'
      is added, so a '/' always separates host and path. */
  function NormalisedTargetUrl(host: string, endpointPath: string): (r: string)
    ensures r == "http://" + host + "/" + (if Text.StartsWith(endpointPath, "/") then endpointPath[1..] else endpointPath)
  {
    var path := if Text.StartsWith(endpointPath, "/") then endpointPath else "/" + endpointPath;
    assert Text.StartsWith(endpointPath, "/") ==> endpointPath == "/" + endpointPath[1..];
    "http://" + host + path
  }

  /** The two agree exactly when the endpoint path already starts with '/'. */
  lemma TargetUrlsAgree(host: string, endpointPath: string)
    ensures TargetUrl(host, endpointPath) == NormalisedTargetUrl(host, endpointPath)
            <==> Text.StartsWith(endpointPath, "/")
  {
    var written := TargetUrl(host, endpointPath);
    var fixed := NormalisedTargetUrl(host, endpointPath);
    assert !Text.StartsWith(endpointPath, "/") ==> |fixed| == |written| + 1;
  }

  /** A path written without its leading slash runs into the host name. */
  lemma TargetUrlJoinsHostAndPath()
    ensures TargetUrl("webui", "tools") == "http://webuitools"
    ensures NormalisedTargetUrl("webui", "tools") == "http://webui/tools"
  {
    assert !Text.StartsWith("tools", "/") by { assert "tools"[..1][0] == 't'; }
  }
}
