/** The configuration side of the deposition-current integrator: `parse_bool_string` and the
    `KEY=VALUE;...` parameter string that `IntegrateCurrent.__init__` turns into attributes. */
module Parameters {
  import opened Wrappers
  import opened Text
  import opened RealMath

  /** The coverage model: nanoparticles or single atoms. */
  datatype Model = NP | SA

  /** The exceptions the parser can raise. */
  datatype ParseError =
    | MalformedPair(item: string)  // `param, value = item.split('=')` did not unpack into two
    | NotANumber(text: string)     // `float(text)` raised ValueError
    | EmptyBoolString              // `string[0]` on '' raised IndexError

  /** The attributes the parser may set on the integrator; None for one never set. */
  datatype Settings = Settings(
    debugging: bool,
    model: Option<Model>,
    target: Option<seq<real>>,
    time: seq<real>,
    leakCurrent: Option<real>,
    areaParticle: Option<real>,
    areaAperture: Option<real>,
    saDensity: Option<real>)

  /** What `__init__` sets before it reads the string. */
  const Defaults: Settings := Settings(false, None, None, [], None, None, None, None)

  /** The target coverages (percent) used when TARGET is not positive. */
  const DefaultTargets: seq<real> :=
    [5.0, 10.0, 15.0, 20.0, 25.0, 30.0, 40.0, 50.0, 75.0, 100.0, 150.0, 200.0, 300.0]

  /** The keys `__init__` acts on, and every other key, which it reports and ignores. */
  datatype Key =
    | LeakCurrent | ParticleDiameter | ApertureDiameter | Debug | ModelKey | SaDensity
    | Target | Time | Unrecognised
  {
    /** The keys whose value goes straight through `float()`. */
    predicate ReadsFloat() {
      LeakCurrent? || ParticleDiameter? || ApertureDiameter? || SaDensity? || Target?
    }
  }

  /** The `if/elif` chain's comparisons of `param` with the key names. */
  function KeyOf(name: string): (k: Key)
    ensures k.Unrecognised? <==> name !in {"LEAK_CURRENT", "PARTICLE_DIAMETER", "APERTURE_DIAMETER",
      "DEBUG", "MODEL", "SA_DENSITY", "TARGET", "TIME"}
  {
    if name == "LEAK_CURRENT" then LeakCurrent
    else if name == "PARTICLE_DIAMETER" then ParticleDiameter
    else if name == "APERTURE_DIAMETER" then ApertureDiameter
    else if name == "DEBUG" then Debug
    else if name == "MODEL" then ModelKey
    else if name == "SA_DENSITY" then SaDensity
    else if name == "TARGET" then Target
    else if name == "TIME" then Time
    else Unrecognised
  }

  /** Python's `float(text)`, a parameter of the model: None where it raises ValueError. */
  type FloatParser = string -> Option<real>

  /** `parse_bool_string`: true for a first character T or Y in either case, or for the
      whole string ON in any case; '' raises IndexError. */
  function ParseBool(s: string): (r: Result<bool, ParseError>)
    ensures r.Failure? <==> s == []
    ensures r.Success? ==> (r.value <==> s[0] in {'T', 't', 'Y', 'y'} || s in {"ON", "On", "oN", "on"})
  {
    if s == [] then Failure(EmptyBoolString)
    else
      var upper := UpperString(s);
      assert upper == "ON" <==> s in {"ON", "On", "oN", "on"} by {
        if upper == "ON" {
          assert |s| == 2 && Upper(s[0]) == 'O' && Upper(s[1]) == 'N';
          assert s == [s[0], s[1]];
        }
      }
      Success(Upper(s[0]) == 'T' || upper == "ON" || Upper(s[0]) == 'Y')
  }

  /** Area of a disc whose diameter is given in `unit` metres: `np.pi * (d/2*unit)**2`. */
  function DiscArea(diameter: real, unit: real): (a: real)
    ensures a >= 0.0
  {
    var radius := diameter / 2.0 * unit;
    Pi * Sq(radius)
  }

  /** `param, value = item.split('=')`: succeeds exactly when the item holds one '='. */
  function SplitPair(item: string): (r: Option<(string, string)>)
    ensures r.Some? <==> multiset(item)['='] == 1
    ensures r.Some? ==> item == r.value.0 + "=" + r.value.1 && '=' !in r.value.0 && '=' !in r.value.1
  {
    var parts := Split(item, '=');
    SplitCount(item, '=');
    JoinSplit(item, '=');
    if |parts| == 2 then Some((parts[0], parts[1])) else None
  }

  /** A key and a value without '=' written as `key=value` split back into the same pair. */
  lemma {:induction false} SplitPairOfJoined(key: string, value: string)
    requires '=' !in key && '=' !in value
    ensures SplitPair(key + "=" + value) == Some((key, value))
  {
    SplitOfJoined(key, value);
  }

  lemma {:induction false} SplitOfJoined(key: string, value: string)
    requires '=' !in key && '=' !in value
    ensures Split(key + "=" + value, '=') == [key, value]
  {
    var s := key + "=" + value;
    if key == [] {
      assert s[1..] == value;
      SplitWithoutSeparator(value, '=');
    } else {
      assert s[0] == key[0] && key[0] in key;
      assert s[1..] == key[1..] + "=" + value;
      assert forall c :: c in key[1..] ==> c in key;
      SplitOfJoined(key[1..], value);
      assert [key[0]] + key[1..] == key;
    }
  }

  /** `[float(val) for val in parts]`: raises at the first part `float` rejects. */
  function ParseFloats(parts: seq<string>, toFloat: FloatParser): (r: Result<seq<real>, ParseError>)
    ensures r.Success? <==> forall k :: 0 <= k < |parts| ==> toFloat(parts[k]).Some?
    ensures r.Success? ==>
      |r.value| == |parts| && forall k :: 0 <= k < |parts| ==> r.value[k] == toFloat(parts[k]).value
    ensures r.Failure? ==> r.error.NotANumber?
  {
    if parts == [] then Success([])
    else match toFloat(parts[0])
      case None => Failure(NotANumber(parts[0]))
      case Some(x) =>
        match ParseFloats(parts[1..], toFloat)
        case Failure(e) => Failure(e)
        case Success(xs) => Success([x] + xs)
  }

  /** Every attribute other than the one `key` sets is equal in `a` and `b`. */
  predicate SameOutside(a: Settings, b: Settings, key: Key)
  {
    (!key.Debug? ==> a.debugging == b.debugging) &&
    (!key.ModelKey? ==> a.model == b.model) &&
    (!key.Target? ==> a.target == b.target) &&
    (!key.Time? ==> a.time == b.time) &&
    (!key.LeakCurrent? ==> a.leakCurrent == b.leakCurrent) &&
    (!key.ParticleDiameter? ==> a.areaParticle == b.areaParticle) &&
    (!key.ApertureDiameter? ==> a.areaAperture == b.areaAperture) &&
    (!key.SaDensity? ==> a.saDensity == b.saDensity)
  }

  /** One pass of the `if/elif` chain in `__init__` for the pair `name=value`. */
  function ApplyParam(st: Settings, name: string, value: string, toFloat: FloatParser): (r: Result<Settings, ParseError>)
    ensures KeyOf(name).Unrecognised? ==> r == Success(st)
    ensures r.Success? ==> SameOutside(st, r.value, KeyOf(name))
  {
    match KeyOf(name)
    case LeakCurrent =>
      (match toFloat(value)
       case None => Failure(NotANumber(value))
       case Some(x) => Success(st.(leakCurrent := Some(x))))
    case ParticleDiameter =>
      (match toFloat(value)
       case None => Failure(NotANumber(value))
       case Some(x) => Success(st.(areaParticle := Some(DiscArea(x, 1e-9)))))
    case ApertureDiameter =>
      (match toFloat(value)
       case None => Failure(NotANumber(value))
       case Some(x) => Success(st.(areaAperture := Some(DiscArea(x, 1e-3)))))
    case Debug =>
      (match ParseBool(value)
       case Failure(e) => Failure(e)
       case Success(b) => Success(st.(debugging := b)))
    case ModelKey =>
      if value == "NP" then Success(st.(model := Some(NP)))
      else if value == "SA" then Success(st.(model := Some(SA)))
      else Success(st)
    case SaDensity =>
      (match toFloat(value)
       case None => Failure(NotANumber(value))
       case Some(x) => Success(st.(saDensity := Some(x))))
    case Target =>
      (match toFloat(value)
       case None => Failure(NotANumber(value))
       case Some(x) => Success(st.(target := Some(if x > 0.0 then [x] else DefaultTargets))))
    case Time =>
      var bare := Strip(value, {'[', ']'});
      if bare == [] then Success(st)
      else
        (match ParseFloats(Split(bare, ','), toFloat)
         case Failure(e) => Failure(e)
         case Success(times) => Success(st.(time := times)))
    case Unrecognised =>
      Success(st)
  }

  /** The per-key rules: a float key fails exactly when `float` does; `DEBUG` fails exactly
      on an empty value; `MODEL` never fails and keeps the old model for a value other
      than NP or SA; a `TARGET` that is not positive becomes the default list; `TIME=[]`
      keeps the old window. */
  lemma PerKeyRules(st: Settings, name: string, value: string, toFloat: FloatParser)
    ensures var r := ApplyParam(st, name, value, toFloat);
      (KeyOf(name).ReadsFloat() ==> (r.Failure? <==> toFloat(value).None?)) &&
      (KeyOf(name).Debug? ==> (r.Failure? <==> value == [])) &&
      (KeyOf(name).ModelKey? ==> r.Success? && (value != "NP" && value != "SA" ==> r.value == st)) &&
      (KeyOf(name).Target? && r.Success? ==>
        r.value.target == Some(if toFloat(value).value > 0.0 then [toFloat(value).value] else DefaultTargets)) &&
      (KeyOf(name).Time? && Strip(value, {'[', ']'}) == [] ==> r == Success(st))
  {
  }

  /** What each key stores when it succeeds: the float itself for LEAK_CURRENT and
      SA_DENSITY, the disc area for the two diameters, the parsed flag for DEBUG, the
      model named by NP or SA, and for a TIME value with something between its brackets
      the comma-separated floats, failing exactly when one of them does. */
  lemma PerKeyStores(st: Settings, name: string, value: string, toFloat: FloatParser)
    ensures KeyOf(name).LeakCurrent? && ApplyParam(st, name, value, toFloat).Success? ==>
      ApplyParam(st, name, value, toFloat).value.leakCurrent == toFloat(value)
    ensures KeyOf(name).SaDensity? && ApplyParam(st, name, value, toFloat).Success? ==>
      ApplyParam(st, name, value, toFloat).value.saDensity == toFloat(value)
    ensures KeyOf(name).ParticleDiameter? && ApplyParam(st, name, value, toFloat).Success? ==>
      ApplyParam(st, name, value, toFloat).value.areaParticle == Some(DiscArea(toFloat(value).value, 1e-9))
    ensures KeyOf(name).ApertureDiameter? && ApplyParam(st, name, value, toFloat).Success? ==>
      ApplyParam(st, name, value, toFloat).value.areaAperture == Some(DiscArea(toFloat(value).value, 1e-3))
    ensures KeyOf(name).Debug? && ApplyParam(st, name, value, toFloat).Success? ==>
      ApplyParam(st, name, value, toFloat).value.debugging == ParseBool(value).value
    ensures KeyOf(name).ModelKey? && value == "NP" ==> ApplyParam(st, name, value, toFloat) == Success(st.(model := Some(NP)))
    ensures KeyOf(name).ModelKey? && value == "SA" ==> ApplyParam(st, name, value, toFloat) == Success(st.(model := Some(SA)))
    ensures KeyOf(name).Time? && Strip(value, {'[', ']'}) != [] ==>
      ApplyParam(st, name, value, toFloat) ==
      (match ParseFloats(Split(Strip(value, {'[', ']'}), ','), toFloat)
       case Failure(e) => Failure(e)
       case Success(times) => Success(st.(time := times)))
  {
  }

  /** The loop of `__init__` over the items, left to right, stopping at the first raise. */
  function ApplyItems(st: Settings, items: seq<string>, toFloat: FloatParser): Result<Settings, ParseError>
    decreases |items|
  {
    if items == [] then Success(st)
    else match SplitPair(items[0])
      case None => Failure(MalformedPair(items[0]))
      case Some(kv) =>
        match ApplyParam(st, kv.0, kv.1, toFloat)
        case Failure(e) => Failure(e)
        case Success(next) => ApplyItems(next, items[1..], toFloat)
  }

  /** `parameter_string.strip(';').split(';')`. */
  function Items(parameterString: string): seq<string>
  {
    Split(Strip(parameterString, {';'}), ';')
  }

  /** The attributes `__init__` ends with, or the exception it raises. */
  function Parse(parameterString: string, toFloat: FloatParser): Result<Settings, ParseError>
  {
    ApplyItems(Defaults, Items(parameterString), toFloat)
  }

  /** Semicolons at either end of the parameter string are ignored. */
  lemma ParseIgnoresOuterSemicolons(s: string, toFloat: FloatParser)
    ensures Parse(";" + s, toFloat) == Parse(s, toFloat)
    ensures Parse(s + ";", toFloat) == Parse(s, toFloat)
  {
    StripIgnoresExtraFront(s, ';', {';'});
    StripIgnoresExtraBack(s, ';', {';'});
  }

  /** An empty parameter string raises: `''.split('=')` has one part, not two. */
  lemma EmptyParameterStringRejected(toFloat: FloatParser)
    ensures Parse("", toFloat) == Failure(MalformedPair(""))
  {
    assert Items("") == [""];
  }

  /** A parsed target list is never empty and holds only positive coverages, and parsed
      areas are never negative: what `integrate` relies on. */
  predicate Sane(st: Settings)
  {
    (st.target.Some? ==> st.target.value != [] && forall k :: 0 <= k < |st.target.value| ==> st.target.value[k] > 0.0) &&
    (st.areaParticle.Some? ==> st.areaParticle.value >= 0.0) &&
    (st.areaAperture.Some? ==> st.areaAperture.value >= 0.0)
  }

  lemma ApplyParamKeepsSane(st: Settings, name: string, value: string, toFloat: FloatParser)
    requires Sane(st)
    ensures ApplyParam(st, name, value, toFloat).Success? ==> Sane(ApplyParam(st, name, value, toFloat).value)
  {
    var r := ApplyParam(st, name, value, toFloat);
    if r.Success? {
      match KeyOf(name)
      case Target =>
        assert forall k :: 0 <= k < |DefaultTargets| ==> DefaultTargets[k] > 0.0;
      case _ =>
    }
  }

  lemma {:induction false} ApplyItemsKeepsSane(st: Settings, items: seq<string>, toFloat: FloatParser)
    requires Sane(st)
    ensures ApplyItems(st, items, toFloat).Success? ==> Sane(ApplyItems(st, items, toFloat).value)
    decreases |items|
  {
    if items != [] {
      match SplitPair(items[0])
      case None =>
      case Some(kv) =>
        var r := ApplyParam(st, kv.0, kv.1, toFloat);
        if r.Success? {
          ApplyParamKeepsSane(st, kv.0, kv.1, toFloat);
          ApplyItemsKeepsSane(r.value, items[1..], toFloat);
        }
    }
  }

  lemma ParsedSettingsSane(parameterString: string, toFloat: FloatParser)
    ensures Parse(parameterString, toFloat).Success? ==> Sane(Parse(parameterString, toFloat).value)
  {
    ApplyItemsKeepsSane(Defaults, Items(parameterString), toFloat);
  }

  /** A value that a later item for the same key replaces outright; a bad MODEL value and
      an empty TIME list keep what was there instead. */
  predicate Replaces(name: string, value: string)
  {
    !KeyOf(name).Unrecognised? && (KeyOf(name).ModelKey? ==> value == "NP" || value == "SA") &&
    (KeyOf(name).Time? ==> Strip(value, {'[', ']'}) != [])
  }

  lemma ApplyParamOverrides(st: Settings, name: string, first: string, second: string, toFloat: FloatParser)
    requires ApplyParam(st, name, first, toFloat).Success?
    requires Replaces(name, second)
    ensures ApplyParam(ApplyParam(st, name, first, toFloat).value, name, second, toFloat) ==
            ApplyParam(st, name, second, toFloat)
  {
    var mid := ApplyParam(st, name, first, toFloat).value;
    match KeyOf(name)
    case LeakCurrent =>
    case ParticleDiameter =>
    case ApertureDiameter =>
    case Debug =>
    case ModelKey =>
    case SaDensity =>
    case Target =>
    case Time =>
  }

  /** Two outcomes that fail alike, or succeed with settings equal outside what `key` sets. */
  predicate AgreeOutside(r1: Result<Settings, ParseError>, r2: Result<Settings, ParseError>, key: Key)
  {
    (r1.Failure? || r2.Failure? ==> r1 == r2) &&
    (r1.Success? && r2.Success? ==> SameOutside(r1.value, r2.value, key))
  }

  /** Whether an item raises never depends on the attributes, and applying it to settings
      that differ only in what `key` sets leaves them differing only there. */
  lemma ApplyParamKeepsAgreement(a: Settings, b: Settings, key: Key, name: string, value: string, toFloat: FloatParser)
    requires SameOutside(a, b, key)
    ensures AgreeOutside(ApplyParam(a, name, value, toFloat), ApplyParam(b, name, value, toFloat), key)
  {
    var ra := ApplyParam(a, name, value, toFloat);
    var rb := ApplyParam(b, name, value, toFloat);
    match KeyOf(name)
    case LeakCurrent =>
    case ParticleDiameter =>
    case ApertureDiameter =>
    case Debug =>
    case ModelKey =>
    case SaDensity =>
    case Target =>
    case Time =>
      var bare := Strip(value, {'[', ']'});
      if bare != [] {
        var times := ParseFloats(Split(bare, ','), toFloat);
        assert ra == (if times.Failure? then Failure(times.error) else Success(a.(time := times.value)));
        assert rb == (if times.Failure? then Failure(times.error) else Success(b.(time := times.value)));
      }
    case Unrecognised =>
  }

  /** The same for a whole run of items. */
  lemma {:induction false} ApplyItemsKeepsAgreement(a: Settings, b: Settings, key: Key, items: seq<string>, toFloat: FloatParser)
    requires SameOutside(a, b, key)
    ensures AgreeOutside(ApplyItems(a, items, toFloat), ApplyItems(b, items, toFloat), key)
    decreases |items|
  {
    if items != [] {
      match SplitPair(items[0])
      case None =>
      case Some(kv) =>
        ApplyParamKeepsAgreement(a, b, key, kv.0, kv.1, toFloat);
        var ra := ApplyParam(a, kv.0, kv.1, toFloat);
        var rb := ApplyParam(b, kv.0, kv.1, toFloat);
        if ra.Success? {
          ApplyItemsKeepsAgreement(ra.value, rb.value, key, items[1..], toFloat);
        }
    }
  }

  /** A replacing assignment erases any difference in its own attribute. */
  lemma ReplacingErasesDifference(a: Settings, b: Settings, name: string, value: string, toFloat: FloatParser)
    requires SameOutside(a, b, KeyOf(name)) && Replaces(name, value)
    ensures ApplyParam(a, name, value, toFloat) == ApplyParam(b, name, value, toFloat)
  {
    match KeyOf(name)
    case LeakCurrent =>
    case ParticleDiameter =>
    case ApertureDiameter =>
    case Debug =>
    case ModelKey =>
    case SaDensity =>
    case Target =>
    case Time =>
  }

  /** The item loop over `xs + ys` runs `xs`, then `ys` from where `xs` left off. */
  lemma {:induction false} ApplyItemsAppend(st: Settings, xs: seq<string>, ys: seq<string>, toFloat: FloatParser)
    ensures ApplyItems(st, xs + ys, toFloat) ==
      match ApplyItems(st, xs, toFloat)
      case Failure(e) => Failure(e)
      case Success(next) => ApplyItems(next, ys, toFloat)
    decreases |xs|
  {
    if xs == [] {
      assert xs + ys == ys;
    } else {
      assert (xs + ys)[0] == xs[0] && (xs + ys)[1..] == xs[1..] + ys;
      match SplitPair(xs[0])
      case None =>
      case Some(kv) =>
        var r := ApplyParam(st, kv.0, kv.1, toFloat);
        if r.Success? {
          ApplyItemsAppend(r.value, xs[1..], ys, toFloat);
        }
    }
  }

  /** A single item `key=value` does what `ApplyParam` does. */
  lemma ApplyOneItem(st: Settings, key: string, value: string, toFloat: FloatParser)
    requires '=' !in key && '=' !in value
    ensures ApplyItems(st, [key + "=" + value], toFloat) == ApplyParam(st, key, value, toFloat)
  {
    SplitPairOfJoined(key, value);
    assert [key + "=" + value][1..] == [];
  }

  /** A later item for a key overrides an earlier one, whatever items come between: the
      loop ends as if the earlier item had not been there. */
  lemma LaterDuplicateOverrides(st: Settings, key: string, first: string, between: seq<string>, second: string, toFloat: FloatParser)
    requires '=' !in key && '=' !in first && '=' !in second
    requires ApplyParam(st, key, first, toFloat).Success?
    requires Replaces(key, second)
    ensures ApplyItems(st, [key + "=" + first] + between + [key + "=" + second], toFloat) ==
            ApplyItems(st, between + [key + "=" + second], toFloat)
  {
    var one := key + "=" + first;
    var two := key + "=" + second;
    var rest := between + [two];
    var after := ApplyParam(st, key, first, toFloat).value;
    SplitPairOfJoined(key, first);
    assert [one] + between + [two] == [one] + rest;
    assert ([one] + rest)[0] == one && ([one] + rest)[1..] == rest;
    assert ApplyItems(st, [one] + rest, toFloat) == ApplyItems(after, rest, toFloat);
    ApplyItemsAppend(after, between, [two], toFloat);
    ApplyItemsAppend(st, between, [two], toFloat);
    ApplyItemsKeepsAgreement(after, st, KeyOf(key), between, toFloat);
    var x := ApplyItems(after, between, toFloat);
    var y := ApplyItems(st, between, toFloat);
    if x.Success? {
      ApplyOneItem(x.value, key, second, toFloat);
      ApplyOneItem(y.value, key, second, toFloat);
      ReplacingErasesDifference(x.value, y.value, key, second, toFloat);
    }
  }
}
