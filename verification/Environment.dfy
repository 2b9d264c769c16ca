/** Environments as YAML values and as messages: `env_dict_to_pb` of
    rx/client/configuration/local.py against protobuf's MessageToDict as
    rx/trex/toolchain/toolchain.py calls it (field names kept, defaults left
    out). Messages are those of rx/proto/rx.proto. */
module Environments {
  import opened Prelude
  import opened Decimal

  // -------------------------------------------------------------- messages

  newtype Int32 = x: int | -0x8000_0000 <= x < 0x8000_0000

  datatype Hardware = Hardware(processor: string)
  datatype Tool = Tool(name: string, version: string)
  datatype Remote = Remote(hardware: Option<Hardware>, toolchain: seq<Tool>)
  datatype Image = Image(
    registry: string, repository: string, tag: string, ports: seq<Int32>, environmentVariables: map<string, string>)
  datatype Environment = Environment(remote: Option<Remote>, image: Option<Image>)

  const EMPTY := Environment(None, None)

  // ------------------------------------------------------------------ YAML

  /** A loaded YAML value. `YOther` stands for any other scalar (a float, a
      date), distinguished by a number. */
  datatype Yaml =
    | YNull
    | YBool(b: bool)
    | YInt(i: int)
    | YStr(s: string)
    | YOther(tag: nat)
    | YList(items: seq<Yaml>)
    | YMap(entries: map<string, Yaml>)

  /** The exceptions `env_dict_to_pb` ends with. */
  datatype Error = TypeError | ValueError | AttributeError | ConfigError

  /** Python's truth of a value; a number in `YOther` may be 0.0. */
  predicate Falsy(y: Yaml, isZero: nat -> bool) {
    match y
    case YNull => true
    case YBool(b) => !b
    case YInt(i) => i == 0
    case YStr(s) => s == ""
    case YOther(tag) => isZero(tag)
    case YList(items) => items == []
    case YMap(entries) => entries == map[]
  }

  /** `part in text` for strings. */
  predicate Substring(part: string, text: string) {
    exists i :: 0 <= i <= |text| - |part| && text[i..][..|part|] == part
  }

  /** `key in y`. */
  function Contains(y: Yaml, key: string): Result<bool, Error> {
    match y
    case YMap(entries) => Success(key in entries)
    case YList(items) => Success(YStr(key) in items)
    case YStr(s) => Success(Substring(key, s))
    case _ => Failure(TypeError)
  }

  /** `y[key]` after `key in y`. */
  function Lookup(y: Yaml, key: string): Result<Yaml, Error> {
    if y.YMap? && key in y.entries then Success(y.entries[key]) else Failure(TypeError)
  }

  /** What the built-in `str` does and how Python reads other scalars. */
  datatype Python = Python(repr: Yaml -> string, isZero: nat -> bool)

  /** `str(y)`. */
  function Str(py: Python, y: Yaml): string {
    match y
    case YStr(s) => s
    case YBool(b) => if b then "True" else "False"
    case YInt(i) => PrintInt(i)
    case YNull => "None"
    case _ => py.repr(y)
  }

  // ---------------------------------------------------- messages to YAML

  /** The entry of a string field, left out when it has its default. */
  function StrField(name: string, value: string): map<string, Yaml> {
    if value == "" then map[] else map[name := YStr(value)]
  }

  function PortList(ports: seq<Int32>): seq<Yaml> {
    seq(|ports|, i requires 0 <= i < |ports| => YInt(ports[i] as int))
  }

  function VarMap(vars: map<string, string>): map<string, Yaml> {
    map k | k in vars :: YStr(vars[k])
  }

  function ToolToYaml(t: Tool): Yaml {
    YMap(StrField("name", t.name) + StrField("version", t.version))
  }

  function ToolList(ts: seq<Tool>): seq<Yaml> {
    seq(|ts|, i requires 0 <= i < |ts| => ToolToYaml(ts[i]))
  }

  function HardwareToYaml(h: Hardware): Yaml {
    YMap(StrField("processor", h.processor))
  }

  function RemoteToYaml(r: Remote): Yaml {
    YMap((if r.hardware.Some? then map["hardware" := HardwareToYaml(r.hardware.value)] else map[])
         + (if r.toolchain == [] then map[] else map["toolchain" := YList(ToolList(r.toolchain))]))
  }

  function PortField(ports: seq<Int32>): map<string, Yaml> {
    if ports == [] then map[] else map["ports" := YList(PortList(ports))]
  }

  function VarField(vars: map<string, string>): map<string, Yaml> {
    if vars == map[] then map[] else map["environment_variables" := YMap(VarMap(vars))]
  }

  function ImageToYaml(i: Image): Yaml {
    YMap(StrField("registry", i.registry) + StrField("repository", i.repository) + StrField("tag", i.tag)
         + PortField(i.ports) + VarField(i.environmentVariables))
  }

  /** `MessageToDict(env, preserving_proto_field_name=True)`. A submessage that is
      present is printed even if it is empty. */
  function ToYaml(env: Environment): Yaml {
    YMap((if env.remote.Some? then map["remote" := RemoteToYaml(env.remote.value)] else map[])
         + (if env.image.Some? then map["image" := ImageToYaml(env.image.value)] else map[]))
  }

  // ---------------------------------------------------- YAML to messages

  /** A string argument of a message constructor; None leaves the field unset. */
  function StrArgument(args: map<string, Yaml>, name: string): Result<string, Error> {
    if name !in args || args[name].YNull? then Success("")
    else if args[name].YStr? then Success(args[name].s)
    else Failure(TypeError)
  }

  /** `Hardware(**y)`: an unknown field is a ValueError. */
  function MakeHardware(y: Yaml): Result<Hardware, Error> {
    if !y.YMap? then Failure(TypeError)
    else if !(y.entries.Keys <= {"processor"}) then Failure(ValueError)
    else
      var processor :- StrArgument(y.entries, "processor");
      Success(Hardware(processor))
  }

  /** `Tool(**y)`. */
  function MakeTool(y: Yaml): Result<Tool, Error> {
    if !y.YMap? then Failure(TypeError)
    else if !(y.entries.Keys <= {"name", "version"}) then Failure(ValueError)
    else
      var name :- StrArgument(y.entries, "name");
      var version :- StrArgument(y.entries, "version");
      Success(Tool(name, version))
  }

  function MakeTools(items: seq<Yaml>): Result<seq<Tool>, Error> {
    if items == [] then Success([])
    else
      var rest :- MakeTools(items[..|items| - 1]);
      var tool :- MakeTool(items[|items| - 1]);
      Success(rest + [tool])
  }

  /** The values a `for` over y yields; keys and characters are strings. */
  function Iterate(y: Yaml): Result<seq<Yaml>, Error> {
    match y
    case YList(items) => Success(items)
    case YMap(entries) => Success(if entries == map[] then [] else [YStr("")])
    case YStr(s) => Success(if s == "" then [] else [YStr("")])
    case _ => Failure(TypeError)
  }

  function MakeRemote(y: Yaml): Result<Remote, Error> {
    var hasHardware :- Contains(y, "hardware");
    var hardware :- if hasHardware then
        var h :- Lookup(y, "hardware");
        var made :- MakeHardware(h);
        Success(Some(made))
      else Success(None);
    var hasToolchain :- Contains(y, "toolchain");
    var toolchain :- if hasToolchain then
        var t :- Lookup(y, "toolchain");
        var items :- Iterate(t);
        MakeTools(items)
      else Success([]);
    Success(Remote(hardware, toolchain))
  }

  /** Assigning y to a string field. */
  function StrAssign(y: Yaml, name: string): Result<string, Error> {
    var has :- Contains(y, name);
    if !has then Success("")
    else
      var v :- Lookup(y, name);
      if v.YStr? then Success(v.s) else Failure(TypeError)
  }

  function MakeTag(py: Python, y: Yaml): Result<string, Error> {
    var has :- Contains(y, "tag");
    if !has then Success("")
    else
      var v :- Lookup(y, "tag");
      Success(Str(py, v))
  }

  /** YAML reads true and false as booleans; the variable gets them back. */
  function VarValue(py: Python, y: Yaml): string {
    if y.YBool? then (if y.b then "true" else "false") else Str(py, y)
  }

  function MakeVars(py: Python, y: Yaml): Result<map<string, string>, Error> {
    var has :- Contains(y, "environment_variables");
    if !has then Success(map[])
    else
      var v :- Lookup(y, "environment_variables");
      if v.YMap? then Success(map k | k in v.entries :: VarValue(py, v.entries[k]))
      else Failure(AttributeError)
  }

  /** Appending y to a repeated int32; Python's booleans are integers. */
  function MakePort(y: Yaml): Result<Int32, Error> {
    match y
    case YInt(i) => if -0x8000_0000 <= i < 0x8000_0000 then Success(i as Int32) else Failure(ValueError)
    case YBool(b) => Success(if b then 1 else 0)
    case _ => Failure(TypeError)
  }

  function MakePortList(items: seq<Yaml>): Result<seq<Int32>, Error> {
    if items == [] then Success([])
    else
      var rest :- MakePortList(items[..|items| - 1]);
      var port :- MakePort(items[|items| - 1]);
      Success(rest + [port])
  }

  function MakePorts(y: Yaml): Result<seq<Int32>, Error> {
    var has :- Contains(y, "ports");
    if !has then Success([])
    else
      var v :- Lookup(y, "ports");
      match v
      case YInt(_) => MakePortList([v])
      case YBool(_) => MakePortList([v])
      case YList(items) => MakePortList(items)
      case _ => Failure(ConfigError)
  }

  function MakeImage(py: Python, y: Yaml): Result<Image, Error> {
    var registry :- StrAssign(y, "registry");
    var repository :- StrAssign(y, "repository");
    var tag :- MakeTag(py, y);
    var vars :- MakeVars(py, y);
    var ports :- MakePorts(y);
    Success(Image(registry, repository, tag, ports, vars))
  }

  /** `env_dict_to_pb`. */
  function FromYaml(py: Python, y: Yaml): Result<Environment, Error> {
    if Falsy(y, py.isZero) then Success(EMPTY)
    else
      var hasRemote :- Contains(y, "remote");
      var remote :- if hasRemote then
          var r :- Lookup(y, "remote");
          var made :- MakeRemote(r);
          Success(Some(made))
        else Success(None);
      var hasImage :- Contains(y, "image");
      var image :- if hasImage then
          var i :- Lookup(y, "image");
          var made :- MakeImage(py, i);
          Success(Some(made))
        else Success(None);
      Success(Environment(remote, image))
  }

  // ------------------------------------------------------------ round trip

  lemma {:induction false} ToolsRoundTrip(ts: seq<Tool>)
    ensures MakeTools(ToolList(ts)) == Success(ts)
  {
    if ts != [] {
      var n := |ts| - 1;
      assert ToolList(ts)[..n] == ToolList(ts[..n]);
      ToolsRoundTrip(ts[..n]);
      ToolRoundTrip(ts[n]);
      assert ts[..n] + [ts[n]] == ts;
    }
  }

  lemma ToolRoundTrip(t: Tool)
    ensures MakeTool(ToolToYaml(t)) == Success(t)
  {
    var entries := ToolToYaml(t).entries;
    assert entries.Keys <= {"name", "version"};
    assert "name" != "version";
    assert StrArgument(entries, "name") == Success(t.name);
    assert StrArgument(entries, "version") == Success(t.version);
  }

  /** A string that is not empty, and nothing else, is printed. */
  lemma DefaultsAreLeftOut(t: Tool, h: Hardware)
    ensures
      var e := ToolToYaml(t).entries;
      && ("name" in e <==> t.name != "") && ("version" in e <==> t.version != "")
      && e.Keys <= {"name", "version"}
    ensures
      var e := HardwareToYaml(h).entries;
      ("processor" in e <==> h.processor != "") && e.Keys <= {"processor"}
  {
    assert "name" != "version";
  }

  lemma {:induction false} PortsRoundTrip(ports: seq<Int32>)
    ensures MakePortList(PortList(ports)) == Success(ports)
  {
    if ports != [] {
      var n := |ports| - 1;
      assert PortList(ports)[..n] == PortList(ports[..n]);
      PortsRoundTrip(ports[..n]);
      assert ports[..n] + [ports[n]] == ports;
    }
  }

  lemma RemoteFields(r: Remote)
    ensures
      var e := RemoteToYaml(r).entries;
      && ("hardware" in e <==> r.hardware.Some?)
      && (r.hardware.Some? ==> e["hardware"] == HardwareToYaml(r.hardware.value))
      && ("toolchain" in e <==> r.toolchain != [])
      && (r.toolchain != [] ==> e["toolchain"] == YList(ToolList(r.toolchain)))
  {
    assert |"hardware"| == 8 && |"toolchain"| == 9;
  }

  lemma HardwareRoundTrip(h: Hardware)
    ensures MakeHardware(HardwareToYaml(h)) == Success(h)
  {
  }

  lemma RemoteRoundTrip(r: Remote)
    ensures MakeRemote(RemoteToYaml(r)) == Success(r)
  {
    RemoteFields(r);
    ToolsRoundTrip(r.toolchain);
    if r.hardware.Some? {
      HardwareRoundTrip(r.hardware.value);
    }
  }

  /** Looking up one of five differently named parts of a union. */
  lemma FiveFields(a: string, b: string, c: string, d: string, e: string,
                   ma: map<string, Yaml>, mb: map<string, Yaml>, mc: map<string, Yaml>,
                   md: map<string, Yaml>, me: map<string, Yaml>)
    requires a != b && a != c && a != d && a != e && b != c && b != d && b != e && c != d && c != e && d != e
    requires ma.Keys <= {a} && mb.Keys <= {b} && mc.Keys <= {c} && md.Keys <= {d} && me.Keys <= {e}
    ensures
      var m := ma + mb + mc + md + me;
      && (a in m <==> a in ma) && (a in m ==> m[a] == ma[a])
      && (b in m <==> b in mb) && (b in m ==> m[b] == mb[b])
      && (c in m <==> c in mc) && (c in m ==> m[c] == mc[c])
      && (d in m <==> d in md) && (d in m ==> m[d] == md[d])
      && (e in m <==> e in me) && (e in m ==> m[e] == me[e])
  {
  }

  lemma ImageFields(i: Image, key: string)
    ensures
      var e := ImageToYaml(i).entries;
      && (key == "registry" ==> (key in e <==> i.registry != "") && (key in e ==> e[key] == YStr(i.registry)))
      && (key == "repository" ==> (key in e <==> i.repository != "") && (key in e ==> e[key] == YStr(i.repository)))
      && (key == "tag" ==> (key in e <==> i.tag != "") && (key in e ==> e[key] == YStr(i.tag)))
      && (key == "ports" ==> (key in e <==> i.ports != []) && (key in e ==> e[key] == YList(PortList(i.ports))))
      && (key == "environment_variables" ==>
            && (key in e <==> i.environmentVariables != map[])
            && (key in e ==> e[key] == YMap(VarMap(i.environmentVariables))))
  {
    assert |"tag"| == 3 && |"ports"| == 5 && |"registry"| == 8 && |"repository"| == 10;
    assert |"environment_variables"| == 21;
    FiveFields("registry", "repository", "tag", "ports", "environment_variables",
               StrField("registry", i.registry), StrField("repository", i.repository), StrField("tag", i.tag),
               PortField(i.ports), VarField(i.environmentVariables));
  }

  lemma ImageStrings(py: Python, i: Image)
    ensures StrAssign(ImageToYaml(i), "registry") == Success(i.registry)
    ensures StrAssign(ImageToYaml(i), "repository") == Success(i.repository)
    ensures MakeTag(py, ImageToYaml(i)) == Success(i.tag)
  {
    ImageFields(i, "registry");
    ImageFields(i, "repository");
    ImageFields(i, "tag");
  }

  lemma ImagePorts(i: Image)
    ensures MakePorts(ImageToYaml(i)) == Success(i.ports)
  {
    ImageFields(i, "ports");
    PortsRoundTrip(i.ports);
  }

  lemma VarsBack(py: Python, vars: map<string, string>)
    ensures (map k | k in VarMap(vars) :: VarValue(py, VarMap(vars)[k])) == vars
  {
  }

  lemma ImageVars(py: Python, i: Image)
    ensures MakeVars(py, ImageToYaml(i)) == Success(i.environmentVariables)
  {
    ImageFields(i, "environment_variables");
    VarsBack(py, i.environmentVariables);
  }

  lemma ImageRoundTrip(py: Python, i: Image)
    ensures MakeImage(py, ImageToYaml(i)) == Success(i)
  {
    ImageStrings(py, i);
    ImagePorts(i);
    ImageVars(py, i);
  }

  /** For every environment: printing it and translating the result gives it
      back, with the same submessages present and the same orders. */
  lemma RoundTrip(py: Python, env: Environment)
    ensures FromYaml(py, ToYaml(env)) == Success(env)
  {
    assert "remote" != "image";
    var e := ToYaml(env).entries;
    assert "remote" in e <==> env.remote.Some?;
    assert "image" in e <==> env.image.Some?;
    if env.remote.Some? {
      RemoteRoundTrip(env.remote.value);
    }
    if env.image.Some? {
      ImageRoundTrip(py, env.image.value);
    }
  }

  /** Different environments never print alike. */
  lemma ToYamlInjective(py: Python, env: Environment, other: Environment)
    requires ToYaml(env) == ToYaml(other)
    ensures env == other
  {
    RoundTrip(py, env);
    RoundTrip(py, other);
  }

  /** The translation is a normaliser: whatever dict it accepted, printing the
      result and translating again changes nothing, and that print is the same
      for every dict with this result. */
  lemma Normalises(py: Python, y: Yaml)
    ensures FromYaml(py, y).Success? ==>
              var normal := ToYaml(FromYaml(py, y).value);
              FromYaml(py, normal) == FromYaml(py, y) && ToYaml(FromYaml(py, normal).value) == normal
  {
    if FromYaml(py, y).Success? {
      RoundTrip(py, FromYaml(py, y).value);
    }
  }

  // -------------------------------------------------- what is converted

  /** The text an environment variable gets: a boolean as YAML writes it, an
      integer as text that reads as the same integer, a string as it is. */
  lemma VariableText(py: Python, image: map<string, Yaml>, vars: map<string, Yaml>, key: string)
    requires key in vars
    requires "environment_variables" in image && image["environment_variables"] == YMap(vars)
    requires MakeImage(py, YMap(image)).Success?
    ensures
      var made := MakeImage(py, YMap(image)).value.environmentVariables;
      && made.Keys == vars.Keys
      && (vars[key].YStr? ==> made[key] == vars[key].s)
      && (vars[key].YInt? ==> ParseInt(made[key]) == Some(vars[key].i))
      && (vars[key] == YBool(true) ==> made[key] == "true")
      && (vars[key] == YBool(false) ==> made[key] == "false")
  {
    assert MakeVars(py, YMap(image)).value == map k | k in vars :: VarValue(py, vars[k]);
    if vars[key].YInt? {
      ParsePrint(vars[key].i);
    }
  }

  /** The text of a tag: also a number or a boolean becomes a string. */
  lemma TagText(py: Python, image: map<string, Yaml>)
    requires "tag" in image && MakeImage(py, YMap(image)).Success?
    ensures
      var tag := MakeImage(py, YMap(image)).value.tag;
      && (image["tag"].YStr? ==> tag == image["tag"].s)
      && (image["tag"].YInt? ==> ParseInt(tag) == Some(image["tag"].i))
      && (image["tag"].YBool? ==> tag == if image["tag"].b then "True" else "False")
      && (image["tag"].YNull? ==> tag == "None")
  {
    assert MakeTag(py, YMap(image)) == Success(Str(py, image["tag"]));
    if image["tag"].YInt? {
      ParsePrint(image["tag"].i);
    }
  }

  /** A port list is taken exactly if every element is, each as its own value. */
  lemma {:induction false} PortListPointwise(items: seq<Yaml>)
    ensures MakePortList(items).Success? <==> forall i :: 0 <= i < |items| ==> MakePort(items[i]).Success?
    ensures MakePortList(items).Success? ==> |MakePortList(items).value| == |items|
    ensures MakePortList(items).Success? ==>
              forall i :: 0 <= i < |items| ==> MakePort(items[i]) == Success(MakePortList(items).value[i])
  {
    if items != [] {
      PortListPointwise(items[..|items| - 1]);
    }
  }

  /** The ports of an accepted image: a single number counts as a list of one,
      every number must fit 32 bits, and the order stays. */
  lemma PortsOfImage(py: Python, image: map<string, Yaml>)
    requires "ports" in image && MakeImage(py, YMap(image)).Success?
    ensures
      var p, made := image["ports"], MakeImage(py, YMap(image)).value.ports;
      && (p.YInt? ==> |made| == 1 && made[0] as int == p.i)
      && (p.YList? ==> |made| == |p.items|)
      && (p.YList? ==> forall i :: 0 <= i < |made| && p.items[i].YInt? ==> made[i] as int == p.items[i].i)
      && (p.YInt? || p.YList? || p.YBool?)
  {
    var p := image["ports"];
    assert MakePorts(YMap(image)).Success?;
    if p.YList? {
      PortListPointwise(p.items);
      forall i | 0 <= i < |p.items| && p.items[i].YInt?
        ensures MakePortList(p.items).value[i] as int == p.items[i].i
      {
        assert MakePort(p.items[i]).Success?;
      }
    } else if p.YInt? {
      PortListPointwise([p]);
      assert MakePort([p][0]).Success?;
    }
  }

  // ------------------------------------ what is accepted, and what it gives

  /** The entry of a dictionary under a key. */
  function Field(y: Yaml, key: string): Option<Yaml> {
    if y.YMap? && key in y.entries then Some(y.entries[key]) else None
  }

  /** The string under a key; empty if there is none. */
  function TextAt(y: Yaml, key: string): string {
    match Field(y, key)
    case Some(YStr(s)) => s
    case _ => ""
  }

  /** A dictionary, or a string or list that `in` finds none of the keys in. */
  predicate HoldsKeys(y: Yaml, keys: set<string>) {
    match y
    case YMap(_) => true
    case YStr(s) => forall key :: key in keys ==> !Substring(key, s)
    case YList(items) => forall key :: key in keys ==> YStr(key) !in items
    case _ => false
  }

  /** A dictionary of string arguments with these names, any of them None. */
  predicate IsArguments(y: Yaml, names: set<string>) {
    && y.YMap? && y.entries.Keys <= names
    && forall key :: key in y.entries ==> y.entries[key].YStr? || y.entries[key].YNull?
  }

  /** What a list of tools may be: its items are dictionaries of a name and a
      version. Nothing to iterate over is no tool. */
  predicate IsToolchain(y: Yaml) {
    match y
    case YList(items) => forall i :: 0 <= i < |items| ==> IsArguments(items[i], {"name", "version"})
    case YMap(entries) => entries == map[]
    case YStr(s) => s == ""
    case _ => false
  }

  predicate IsRemote(y: Yaml) {
    && HoldsKeys(y, {"hardware", "toolchain"})
    && (Field(y, "hardware").Some? ==> IsArguments(Field(y, "hardware").value, {"processor"}))
    && (Field(y, "toolchain").Some? ==> IsToolchain(Field(y, "toolchain").value))
  }

  /** A number that fits 32 bits, or a boolean. */
  predicate IsPort(y: Yaml) {
    (y.YInt? && -0x8000_0000 <= y.i < 0x8000_0000) || y.YBool?
  }

  predicate IsPorts(y: Yaml) {
    IsPort(y) || (y.YList? && forall i :: 0 <= i < |y.items| ==> IsPort(y.items[i]))
  }

  predicate IsText(field: Option<Yaml>) {
    field.Some? ==> field.value.YStr?
  }

  predicate IsVars(field: Option<Yaml>) {
    field.Some? ==> field.value.YMap?
  }

  const IMAGE_KEYS := {"registry", "repository", "tag", "environment_variables", "ports"}

  predicate IsImage(y: Yaml) {
    && HoldsKeys(y, IMAGE_KEYS)
    && IsText(Field(y, "registry")) && IsText(Field(y, "repository"))
    && IsVars(Field(y, "environment_variables"))
    && (Field(y, "ports").Some? ==> IsPorts(Field(y, "ports").value))
  }

  /** Of several keys: each is found in the value, or it is no part of it. */
  lemma ContainsField(y: Yaml, key: string, keys: set<string>)
    requires key in keys
    ensures HoldsKeys(y, keys) ==> Contains(y, key) == Success(Field(y, key).Some?)
    ensures Contains(y, key) == Success(true) && Lookup(y, key).Success? <==> Field(y, key).Some?
    ensures Field(y, key).Some? ==> Lookup(y, key) == Success(Field(y, key).value)
  {
  }

  /** What accepts every key, accepts the value. */
  lemma AllFound(y: Yaml, keys: set<string>)
    requires forall key :: key in keys ==>
               Contains(y, key).Success? && (Contains(y, key).value ==> Lookup(y, key).Success?)
    requires keys != {}
    ensures HoldsKeys(y, keys)
  {
    var some := Pick(keys);
    assert Contains(y, some).Success?;
  }

  lemma ArgumentsIff(y: Yaml)
    ensures MakeHardware(y).Success? <==> IsArguments(y, {"processor"})
    ensures MakeHardware(y).Success? ==> MakeHardware(y).value.processor == TextAt(y, "processor")
    ensures MakeTool(y).Success? <==> IsArguments(y, {"name", "version"})
    ensures MakeTool(y).Success? ==>
              MakeTool(y).value.name == TextAt(y, "name") && MakeTool(y).value.version == TextAt(y, "version")
  {
  }

  /** A toolchain is taken exactly if every item is, each with its own name and
      version, in order. */
  lemma {:induction false} ToolListPointwise(items: seq<Yaml>)
    ensures MakeTools(items).Success? <==> forall i :: 0 <= i < |items| ==> IsArguments(items[i], {"name", "version"})
    ensures MakeTools(items).Success? ==> |MakeTools(items).value| == |items|
    ensures MakeTools(items).Success? ==>
              forall i :: 0 <= i < |items| ==>
                && MakeTools(items).value[i].name == TextAt(items[i], "name")
                && MakeTools(items).value[i].version == TextAt(items[i], "version")
  {
    if items != [] {
      ToolListPointwise(items[..|items| - 1]);
      ArgumentsIff(items[|items| - 1]);
    }
  }

  /** The items of the toolchain, if there is one. */
  function ToolItems(y: Yaml): seq<Yaml> {
    match Field(y, "toolchain")
    case Some(YList(items)) => items
    case _ => []
  }

  lemma ToolchainIff(t: Yaml)
    ensures Iterate(t).Success? && MakeTools(Iterate(t).value).Success? <==> IsToolchain(t)
    ensures IsToolchain(t) ==> Iterate(t).value == if t.YList? then t.items else []
  {
    if Iterate(t).Success? {
      ToolListPointwise(Iterate(t).value);
      if !t.YList? && Iterate(t).value != [] {
        assert !IsArguments(Iterate(t).value[0], {"name", "version"});
      }
    }
  }

  /** Each field of the remote part, from the dictionary's entries alone. */
  predicate RemoteGives(y: Yaml, r: Remote) {
    && (r.hardware.Some? <==> Field(y, "hardware").Some?)
    && (r.hardware.Some? ==> r.hardware.value.processor == TextAt(Field(y, "hardware").value, "processor"))
    && |r.toolchain| == |ToolItems(y)|
    && (forall i :: 0 <= i < |r.toolchain| ==>
          && r.toolchain[i].name == TextAt(ToolItems(y)[i], "name")
          && r.toolchain[i].version == TextAt(ToolItems(y)[i], "version"))
  }

  lemma RemoteIff(y: Yaml)
    ensures MakeRemote(y).Success? <==> IsRemote(y)
    ensures MakeRemote(y).Success? ==> RemoteGives(y, MakeRemote(y).value)
  {
    var keys := {"hardware", "toolchain"};
    ContainsField(y, "hardware", keys);
    ContainsField(y, "toolchain", keys);
    if Field(y, "hardware").Some? {
      ArgumentsIff(Field(y, "hardware").value);
    }
    if Field(y, "toolchain").Some? {
      ToolchainIff(Field(y, "toolchain").value);
      if Field(y, "toolchain").value.YList? {
        ToolListPointwise(Field(y, "toolchain").value.items);
      }
    }
    if MakeRemote(y).Success? {
      AllFound(y, keys);
    }
  }

  // the image part, field by field

  /** The number a port stands for: a boolean is 0 or 1. */
  function PortNumber(y: Yaml): int {
    match y
    case YInt(i) => i
    case YBool(b) => if b then 1 else 0
    case _ => 0
  }

  /** The values under `ports`: a list's items, or a single one. */
  function PortItems(y: Yaml): seq<Yaml> {
    match Field(y, "ports")
    case None => []
    case Some(YList(items)) => items
    case Some(v) => [v]
  }

  predicate PortsGive(y: Yaml, ports: seq<Int32>) {
    |ports| == |PortItems(y)| && forall i :: 0 <= i < |ports| ==> ports[i] as int == PortNumber(PortItems(y)[i])
  }

  /** The text of a scalar as `str` writes it. */
  predicate IsStr(y: Yaml, text: string) {
    match y
    case YStr(s) => text == s
    case YInt(i) => text == PrintInt(i)
    case YBool(b) => text == if b then "True" else "False"
    case YNull => text == "None"
    case _ => true
  }

  /** The text of a variable: booleans are written as YAML writes them. */
  predicate IsVariable(y: Yaml, text: string) {
    if y.YBool? then text == (if y.b then "true" else "false") else IsStr(y, text)
  }

  predicate VarsGive(field: Option<Yaml>, vars: map<string, string>) {
    match field
    case Some(YMap(entries)) =>
      vars.Keys == entries.Keys && forall key :: key in vars ==> IsVariable(entries[key], vars[key])
    case _ => vars == map[]
  }

  predicate TagGives(field: Option<Yaml>, tag: string) {
    match field
    case None => tag == ""
    case Some(v) => IsStr(v, tag)
  }

  predicate ImageGives(y: Yaml, i: Image) {
    && i.registry == TextAt(y, "registry") && i.repository == TextAt(y, "repository")
    && TagGives(Field(y, "tag"), i.tag)
    && VarsGive(Field(y, "environment_variables"), i.environmentVariables)
    && PortsGive(y, i.ports)
  }

  lemma TextsIff(y: Yaml, key: string)
    requires HoldsKeys(y, IMAGE_KEYS) && key in IMAGE_KEYS
    ensures StrAssign(y, key).Success? <==> IsText(Field(y, key))
    ensures StrAssign(y, key).Success? ==> StrAssign(y, key).value == TextAt(y, key)
  {
    ContainsField(y, key, IMAGE_KEYS);
  }

  lemma TagAndVarsIff(py: Python, y: Yaml)
    requires HoldsKeys(y, IMAGE_KEYS)
    ensures MakeTag(py, y).Success? && TagGives(Field(y, "tag"), MakeTag(py, y).value)
    ensures MakeVars(py, y).Success? <==> IsVars(Field(y, "environment_variables"))
    ensures MakeVars(py, y).Success? ==> VarsGive(Field(y, "environment_variables"), MakeVars(py, y).value)
  {
    ContainsField(y, "tag", IMAGE_KEYS);
    ContainsField(y, "environment_variables", IMAGE_KEYS);
  }

  lemma PortsIff(y: Yaml)
    requires HoldsKeys(y, IMAGE_KEYS)
    ensures MakePorts(y).Success? <==> Field(y, "ports").Some? ==> IsPorts(Field(y, "ports").value)
    ensures MakePorts(y).Success? ==> PortsGive(y, MakePorts(y).value)
  {
    ContainsField(y, "ports", IMAGE_KEYS);
    var items := PortItems(y);
    PortListPointwise(items);
    assert forall v :: MakePort(v).Success? <==> IsPort(v);
    if MakePortList(items).Success? {
      forall i | 0 <= i < |items| ensures MakePortList(items).value[i] as int == PortNumber(items[i]) {
        assert MakePort(items[i]).Success?;
      }
    }
  }

  lemma ImageIff(py: Python, y: Yaml)
    ensures MakeImage(py, y).Success? <==> IsImage(y)
    ensures MakeImage(py, y).Success? ==> ImageGives(y, MakeImage(py, y).value)
  {
    if MakeImage(py, y).Success? {
      AllFound(y, IMAGE_KEYS);
    }
    if HoldsKeys(y, IMAGE_KEYS) {
      TextsIff(y, "registry");
      TextsIff(y, "repository");
      TagAndVarsIff(py, y);
      PortsIff(y);
    }
  }

  /** An empty value, or a dictionary whose parts are of the right kind. */
  predicate IsEnvironment(py: Python, y: Yaml) {
    Falsy(y, py.isZero) ||
    (&& HoldsKeys(y, {"remote", "image"})
     && (Field(y, "remote").Some? ==> IsRemote(Field(y, "remote").value))
     && (Field(y, "image").Some? ==> IsImage(Field(y, "image").value)))
  }

  /** Each part is there exactly if its key is, with the fields its own entries
      give. */
  predicate Gives(y: Yaml, env: Environment) {
    && (env.remote.Some? <==> Field(y, "remote").Some?)
    && (env.remote.Some? ==> RemoteGives(Field(y, "remote").value, env.remote.value))
    && (env.image.Some? <==> Field(y, "image").Some?)
    && (env.image.Some? ==> ImageGives(Field(y, "image").value, env.image.value))
  }

  /** Which values are accepted, and what every field of the message is then. */
  lemma AcceptedIff(py: Python, y: Yaml)
    ensures FromYaml(py, y).Success? <==> IsEnvironment(py, y)
    ensures FromYaml(py, y).Success? ==> Gives(y, FromYaml(py, y).value)
  {
    var keys := {"remote", "image"};
    ContainsField(y, "remote", keys);
    ContainsField(y, "image", keys);
    if Field(y, "remote").Some? {
      RemoteIff(Field(y, "remote").value);
    }
    if Field(y, "image").Some? {
      ImageIff(py, Field(y, "image").value);
    }
    if FromYaml(py, y).Success? && !Falsy(y, py.isZero) {
      AllFound(y, keys);
    }
  }

  /** A ConfigError is raised exactly for ports that are neither a number nor a
      list, and an AttributeError exactly for variables that are no dictionary, if
      nothing before them in the image fails. */
  lemma ImageErrors(py: Python, y: Yaml)
    requires HoldsKeys(y, IMAGE_KEYS)
    ensures
      var texts := IsText(Field(y, "registry")) && IsText(Field(y, "repository"));
      var vars, ports := Field(y, "environment_variables"), Field(y, "ports");
      && (!texts ==> MakeImage(py, y) == Failure(TypeError))
      && (MakeImage(py, y) == Failure(AttributeError) <==> texts && !IsVars(vars))
      && (MakeImage(py, y) == Failure(ConfigError) <==>
            texts && IsVars(vars) && ports.Some? && !(ports.value.YInt? || ports.value.YBool? || ports.value.YList?))
  {
    TextsIff(y, "registry");
    TextsIff(y, "repository");
    TagAndVarsIff(py, y);
    ContainsField(y, "registry", IMAGE_KEYS);
    ContainsField(y, "repository", IMAGE_KEYS);
    ContainsField(y, "environment_variables", IMAGE_KEYS);
    ContainsField(y, "ports", IMAGE_KEYS);
    PortListErrors(PortItems(y));
  }

  /** The first element that is not taken decides: a number that does not fit is a
      ValueError, anything else a TypeError. */
  lemma {:induction false} PortListErrors(items: seq<Yaml>)
    ensures MakePortList(items) == Failure(ValueError) <==>
              exists k ::
                0 <= k < |items| && items[k].YInt? && !IsPort(items[k]) && forall i :: 0 <= i < k ==> IsPort(items[i])
    ensures MakePortList(items).Failure? ==> MakePortList(items).error in {TypeError, ValueError}
  {
    if items != [] {
      var n := |items| - 1;
      var init := items[..n];
      PortListErrors(init);
      PortListPointwise(init);
      assert forall v :: MakePort(v).Success? <==> IsPort(v);
      if MakePortList(init) == Failure(ValueError) {
        var k :| 0 <= k < |init| && init[k].YInt? && !IsPort(init[k]) && forall i :: 0 <= i < k ==> IsPort(init[i]);
        assert items[k] == init[k] && forall i :: 0 <= i < k ==> items[i] == init[i];
      }
      if k :| 0 <= k < |items| && items[k].YInt? && !IsPort(items[k]) && forall i :: 0 <= i < k ==> IsPort(items[i]) {
        if k < n {
          assert init[k] == items[k] && forall i :: 0 <= i < k ==> init[i] == items[i];
        } else {
          assert forall i :: 0 <= i < |init| ==> init[i] == items[i];
        }
      }
    }
  }

  /** What is no dictionary of arguments is a TypeError, and a dictionary with an
      unknown name a ValueError. */
  lemma ArgumentErrors(y: Yaml)
    ensures MakeTool(y) == Failure(ValueError) <==> y.YMap? && !(y.entries.Keys <= {"name", "version"})
    ensures MakeHardware(y) == Failure(ValueError) <==> y.YMap? && !(y.entries.Keys <= {"processor"})
    ensures MakeTool(y).Failure? ==> MakeTool(y).error in {TypeError, ValueError}
    ensures MakeHardware(y).Failure? ==> MakeHardware(y).error in {TypeError, ValueError}
  {
  }

  /** What Python takes for false, and what it takes for a part of a text. */
  lemma FalsyIff(y: Yaml, isZero: nat -> bool)
    ensures Falsy(y, isZero) <==>
              || y in [YNull, YBool(false), YInt(0), YStr(""), YList([]), YMap(map[])]
              || (y.YOther? && isZero(y.tag))
  {
  }

  lemma SubstringIff(part: string, text: string)
    ensures Substring(part, text) <==> exists before, after :: text == before + part + after
  {
    if Substring(part, text) {
      var i :| 0 <= i <= |text| - |part| && text[i..][..|part|] == part;
      assert text == text[..i] + part + text[i + |part|..];
    }
    if before, after :| text == before + part + after {
      assert text[|before|..] == part + after;
      assert text[|before|..][..|part|] == part;
    }
  }

  /** What is no dictionary and seems to hold a key, or cannot be asked for one, is
      a TypeError. */
  lemma NoDictionaryError(py: Python, y: Yaml)
    ensures !HoldsKeys(y, {"hardware", "toolchain"}) ==> MakeRemote(y) == Failure(TypeError)
    ensures !HoldsKeys(y, IMAGE_KEYS) ==> MakeImage(py, y) == Failure(TypeError)
    ensures !Falsy(y, py.isZero) && !HoldsKeys(y, {"remote", "image"}) ==> FromYaml(py, y) == Failure(TypeError)
  {
  }

  /** The first item that is not taken decides how a toolchain fails. */
  lemma {:induction false} ToolListErrors(items: seq<Yaml>, k: nat)
    requires k < |items| && MakeTool(items[k]).Failure?
    requires forall i :: 0 <= i < k ==> IsArguments(items[i], {"name", "version"})
    ensures MakeTools(items) == Failure(MakeTool(items[k]).error)
  {
    var init := items[..|items| - 1];
    if k < |items| - 1 {
      ToolListErrors(init, k);
    } else {
      ToolListPointwise(init);
    }
  }

  /** The hardware is looked at before the toolchain; what cannot be iterated, or
      gives characters or keys for tools, is a TypeError. */
  lemma RemoteErrors(y: Yaml)
    requires HoldsKeys(y, {"hardware", "toolchain"})
    ensures
      var h, t := Field(y, "hardware"), Field(y, "toolchain");
      var badHardware := h.Some? && MakeHardware(h.value).Failure?;
      && (badHardware ==> MakeRemote(y) == Failure(MakeHardware(h.value).error))
      && (!badHardware && t.Some? && !IsToolchain(t.value) ==>
            && MakeRemote(y).Failure?
            && (t.value.YList? ==> MakeTools(t.value.items) == Failure(MakeRemote(y).error))
            && (!t.value.YList? ==> MakeRemote(y).error == TypeError))
  {
    ContainsField(y, "hardware", {"hardware", "toolchain"});
    ContainsField(y, "toolchain", {"hardware", "toolchain"});
    if Field(y, "toolchain").Some? {
      var t := Field(y, "toolchain").value;
      ToolchainIff(t);
      if t.YList? {
        ToolListPointwise(t.items);
      }
      if Iterate(t).Success? && !t.YList? && Iterate(t).value != [] {
        ToolListErrors(Iterate(t).value, 0);
      }
    }
  }

  /** The remote part is looked at before the image. */
  lemma ErrorsInOrder(py: Python, y: Yaml)
    requires !Falsy(y, py.isZero) && HoldsKeys(y, {"remote", "image"})
    ensures
      var r, i := Field(y, "remote"), Field(y, "image");
      var badRemote := r.Some? && MakeRemote(r.value).Failure?;
      && (badRemote ==> FromYaml(py, y) == Failure(MakeRemote(r.value).error))
      && (!badRemote && i.Some? && MakeImage(py, i.value).Failure? ==>
            FromYaml(py, y) == Failure(MakeImage(py, i.value).error))
  {
    ContainsField(y, "remote", {"remote", "image"});
    ContainsField(y, "image", {"remote", "image"});
  }

  // ------------------------------------------- the translation as written

  /** The loop over `remote_dict['toolchain']`. */
  method AppendTools(items: seq<Yaml>) returns (r: Result<seq<Tool>, Error>)
    ensures r == MakeTools(items)
  {
    var toolchain: seq<Tool> := [];
    for i := 0 to |items|
      invariant MakeTools(items[..i]) == Success(toolchain)
    {
      assert items[..i + 1][..i] == items[..i];
      var tool := MakeTool(items[i]);
      if tool.Failure? {
        MakeToolsStops(items, i + 1);
        return Failure(tool.error);
      }
      toolchain := toolchain + [tool.value];
    }
    assert items[..|items|] == items;
    return Success(toolchain);
  }

  /** What failed on a prefix fails on the whole in the same way. */
  lemma {:induction false} MakeToolsStops(items: seq<Yaml>, n: nat)
    requires n <= |items| && MakeTools(items[..n]).Failure?
    ensures MakeTools(items) == MakeTools(items[..n])
    decreases |items|
  {
    if n == |items| {
      assert items[..n] == items;
    } else {
      assert items[..|items| - 1][..n] == items[..n];
      MakeToolsStops(items[..|items| - 1], n);
    }
  }

  /** `image_pb.ports.extend(...)`, element by element. */
  method ExtendPorts(items: seq<Yaml>) returns (r: Result<seq<Int32>, Error>)
    ensures r == MakePortList(items)
  {
    var ports: seq<Int32> := [];
    for i := 0 to |items|
      invariant MakePortList(items[..i]) == Success(ports)
    {
      assert items[..i + 1][..i] == items[..i];
      var port := MakePort(items[i]);
      if port.Failure? {
        MakePortListStops(items, i + 1);
        return Failure(port.error);
      }
      ports := ports + [port.value];
    }
    assert items[..|items|] == items;
    return Success(ports);
  }

  lemma {:induction false} MakePortListStops(items: seq<Yaml>, n: nat)
    requires n <= |items| && MakePortList(items[..n]).Failure?
    ensures MakePortList(items) == MakePortList(items[..n])
    decreases |items|
  {
    if n == |items| {
      assert items[..n] == items;
    } else {
      assert items[..|items| - 1][..n] == items[..n];
      MakePortListStops(items[..|items| - 1], n);
    }
  }

  /** The loop over `image_dict['environment_variables'].items()`. */
  method SetVars(py: Python, entries: map<string, Yaml>) returns (vars: map<string, string>)
    ensures vars == map k | k in entries :: VarValue(py, entries[k])
  {
    vars := map[];
    var todo := entries.Keys;
    while todo != {}
      invariant todo <= entries.Keys
      invariant vars == map k | k in entries.Keys - todo :: VarValue(py, entries[k])
      decreases todo
    {
      ghost var some := Pick(todo);
      var k :| k in todo;
      var v := entries[k];
      if v.YBool? {
        v := YStr(if v.b then "true" else "false");
      }
      vars := vars[k := Str(py, v)];
      todo := todo - {k};
    }
  }

  /** A later `in` on a value that has already answered one. */
  predicate Has(y: Yaml, key: string) {
    Contains(y, key) == Success(true)
  }

  /** The image part of `env_dict_to_pb`, field by field. */
  method FillImage(py: Python, imageDict: Yaml) returns (r: Result<Image, Error>)
    ensures r == MakeImage(py, imageDict)
  {
    var image := Image("", "", "", [], map[]);
    var registry :- StrAssign(imageDict, "registry");
    image := image.(registry := registry);
    var repository :- StrAssign(imageDict, "repository");
    image := image.(repository := repository);
    var tag :- MakeTag(py, imageDict);
    image := image.(tag := tag);
    var has := Has(imageDict, "environment_variables");
    if has {
      var v :- Lookup(imageDict, "environment_variables");
      if !v.YMap? {
        return Failure(AttributeError);
      }
      var vars := SetVars(py, v.entries);
      image := image.(environmentVariables := vars);
    }
    has := Has(imageDict, "ports");
    if has {
      var ports :- Lookup(imageDict, "ports");
      // Ports might be a single number.
      var items: seq<Yaml>;
      if ports.YInt? || ports.YBool? {
        items := [ports];
      } else if ports.YList? {
        items := ports.items;
      } else {
        return Failure(ConfigError);
      }
      var made := ExtendPorts(items);
      var list :- made;
      image := image.(ports := list);
    }
    return Success(image);
  }

  /** The remote part of `env_dict_to_pb`. */
  method FillRemote(remoteDict: Yaml) returns (r: Result<Remote, Error>)
    ensures r == MakeRemote(remoteDict)
  {
    var remote := Remote(None, []);
    var has :- Contains(remoteDict, "hardware");
    if has {
      var h :- Lookup(remoteDict, "hardware");
      var hardware :- MakeHardware(h);
      remote := remote.(hardware := Some(hardware));
    }
    has := Has(remoteDict, "toolchain");
    if has {
      var t :- Lookup(remoteDict, "toolchain");
      var items :- Iterate(t);
      var made := AppendTools(items);
      var tools :- made;
      remote := remote.(toolchain := tools);
    }
    return Success(remote);
  }

  method EnvDictToPb(py: Python, envDict: Yaml) returns (r: Result<Environment, Error>)
    ensures r == FromYaml(py, envDict)
    ensures r.Success? <==> IsEnvironment(py, envDict)
    ensures r.Success? ==> Gives(envDict, r.value)
  {
    AcceptedIff(py, envDict);
    var env := EMPTY;
    if Falsy(envDict, py.isZero) {
      return Success(env);
    }
    var has :- Contains(envDict, "remote");
    if has {
      var d :- Lookup(envDict, "remote");
      var made := FillRemote(d);
      var remote :- made;
      env := env.(remote := Some(remote));
    }
    has := Has(envDict, "image");
    if has {
      var d :- Lookup(envDict, "image");
      var made := FillImage(py, d);
      var image :- made;
      env := env.(image := Some(image));
    }
    return Success(env);
  }
}
