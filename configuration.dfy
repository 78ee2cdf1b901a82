/** `DxramConfiguration`: the platform options shipped with every job. */
module Configuration {
  import opened Wrappers
  import opened Numeric
  import opened Serial

  const HOME_PATH_KEY: string := "platform.dxram.home"
  const NUM_MACHINES_KEY: string := "platform.dxram.num-machines"
  const NUM_THREADS_KEY: string := "platform.dxram.num-threads"

  datatype Exception = NullPointer | ConfigurationLoadFailed

  /** The three options; the home path is a Java reference and starts out null. */
  datatype ConfigValue = ConfigValue(homePath: Option<string>, numMachines: int, numThreads: int)

  /** A new configuration: no home path, one machine, one thread. */
  const DEFAULT_CONFIG: ConfigValue := ConfigValue(None, 1, 1)

  /** The loaded properties file, as the key lookups the parser makes. */
  datatype Properties = Properties(strings: map<string, string>, integers: map<string, int>)

  /**
   * `parsePropertiesFile`: a missing file aborts; otherwise the home path is taken only
   * when present and each count falls back to 1 when its key is absent.
   */
  function Parse(conf: Option<Properties>): (r: Result<ConfigValue, Exception>)
    ensures conf.None? <==> r.Err?
    ensures r.Ok? ==>
      && (r.value.homePath.Some? <==> HOME_PATH_KEY in conf.value.strings)
      && (r.value.homePath.Some? ==> r.value.homePath.value == conf.value.strings[HOME_PATH_KEY])
      && r.value.numMachines == (if NUM_MACHINES_KEY in conf.value.integers then conf.value.integers[NUM_MACHINES_KEY] else 1)
      && r.value.numThreads == (if NUM_THREADS_KEY in conf.value.integers then conf.value.integers[NUM_THREADS_KEY] else 1)
  {
    match conf
    case None => Err(ConfigurationLoadFailed)
    case Some(p) =>
      var home := if HOME_PATH_KEY in p.strings then Some(p.strings[HOME_PATH_KEY]) else DEFAULT_CONFIG.homePath;
      var machines := if NUM_MACHINES_KEY in p.integers then p.integers[NUM_MACHINES_KEY] else 1;
      var threads := if NUM_THREADS_KEY in p.integers then p.integers[NUM_THREADS_KEY] else 1;
      Ok(ConfigValue(home, machines, threads))
  }

  /** `exportObject`: home path, number of machines, number of threads; a null path cannot be written. */
  function Encode(v: ConfigValue): Result<seq<Token>, Exception> {
    if v.homePath.None? then Err(NullPointer)
    else Ok([StrTok(v.homePath.value), IntTok(v.numMachines), IntTok(v.numThreads)])
  }

  /** `importObject` as written: both ints are assigned to `numMachines`. */
  function DecodeAsWritten(ts: seq<Token>, cur: ConfigValue): (ConfigValue, seq<Token>) {
    var (h, ts1) := ReadString(ts, cur.homePath);
    var (m, ts2) := ReadInt(ts1, cur.numMachines);
    var (m', ts3) := ReadInt(ts2, cur.numThreads);
    (ConfigValue(h, m', cur.numThreads), ts3)
  }

  /** `importObject` as evidently intended: the second int goes to `numThreads`. */
  function Decode(ts: seq<Token>, cur: ConfigValue): (ConfigValue, seq<Token>) {
    var (h, ts1) := ReadString(ts, cur.homePath);
    var (m, ts2) := ReadInt(ts1, cur.numMachines);
    var (t, ts3) := ReadInt(ts2, cur.numThreads);
    (ConfigValue(h, m, t), ts3)
  }

  /** `sizeofObject`: the library's string size plus two ints, in `int` arithmetic; a null path throws. */
  function SizeOf(rules: SizeRules, v: ConfigValue): Result<int, Exception> {
    if v.homePath.None? then Err(NullPointer) else Ok(WrapInt(rules.stringSize(v.homePath.value) + 8))
  }

  /**
   * As written, import after export puts the exported thread count into `numMachines`
   * and leaves `numThreads` as it was; the machine count is lost.
   */
  lemma ImportLosesThreads(v: ConfigValue, cur: ConfigValue, rest: seq<Token>)
    requires v.homePath.Some?
    ensures Encode(v).Ok?
    ensures DecodeAsWritten(Encode(v).value + rest, cur)
            == (ConfigValue(v.homePath, v.numThreads, cur.numThreads), rest)
  {
  }

  /** A concrete run of the defect: (h, 2 machines, 3 threads) comes back as (h, 3, 1). */
  lemma ImportAsWrittenCounterexample()
    ensures Encode(ConfigValue(Some("h"), 2, 3)).Ok?
    ensures DecodeAsWritten(Encode(ConfigValue(Some("h"), 2, 3)).value, DEFAULT_CONFIG).0
            == ConfigValue(Some("h"), 3, 1)
  {
    ImportLosesThreads(ConfigValue(Some("h"), 2, 3), DEFAULT_CONFIG, []);
    assert Encode(ConfigValue(Some("h"), 2, 3)).value + [] == Encode(ConfigValue(Some("h"), 2, 3)).value;
  }

  /** With the intended import, import after export restores all three fields. */
  lemma RoundTrip(v: ConfigValue, cur: ConfigValue, rest: seq<Token>)
    requires v.homePath.Some?
    ensures Encode(v).Ok?
    ensures Decode(Encode(v).value + rest, cur) == (v, rest)
  {
  }

  /** The declared size is the size of what export writes. */
  lemma SizeMatchesExport(rules: SizeRules, v: ConfigValue)
    requires v.homePath.Some?
    ensures Encode(v).Ok? && SizeOf(rules, v).Ok?
    ensures SizeOf(rules, v).value == WrapInt(StreamSize(rules, Encode(v).value))
    ensures IsInt(StreamSize(rules, Encode(v).value)) ==> SizeOf(rules, v).value == StreamSize(rules, Encode(v).value)
  {
    var enc := [StrTok(v.homePath.value), IntTok(v.numMachines), IntTok(v.numThreads)];
    StreamSizeCons(rules, StrTok(v.homePath.value), [IntTok(v.numMachines), IntTok(v.numThreads)]);
    StreamSizeCons(rules, IntTok(v.numMachines), [IntTok(v.numThreads)]);
    StreamSizeCons(rules, IntTok(v.numThreads), []);
    assert enc == [StrTok(v.homePath.value)] + [IntTok(v.numMachines), IntTok(v.numThreads)];
    assert [IntTok(v.numMachines), IntTok(v.numThreads)] == [IntTok(v.numMachines)] + [IntTok(v.numThreads)];
    assert [IntTok(v.numThreads)] == [IntTok(v.numThreads)] + [];
  }

  class DxramConfiguration {
    var homePath: Option<string>
    var numMachines: int
    var numThreads: int

    constructor ()
      ensures Value() == DEFAULT_CONFIG
    {
      homePath := None;
      numMachines := 1;
      numThreads := 1;
    }

    function Value(): ConfigValue
      reads this
    {
      ConfigValue(homePath, numMachines, numThreads)
    }

    method GetHomePath() returns (p: Option<string>)
      ensures p == Value().homePath
    {
      p := homePath;
    }

    method GetNumMachines() returns (n: int)
      ensures n == Value().numMachines
    {
      n := numMachines;
    }

    method GetNumThreads() returns (n: int)
      ensures n == Value().numThreads
    {
      n := numThreads;
    }

    method SetHomePath(p: Option<string>)
      modifies this
      ensures Value() == old(Value()).(homePath := p)
    {
      homePath := p;
    }

    method SetNumMachines(n: int)
      modifies this
      ensures Value() == old(Value()).(numMachines := n)
    {
      numMachines := n;
    }

    method SetNumThreads(n: int)
      modifies this
      ensures Value() == old(Value()).(numThreads := n)
    {
      numThreads := n;
    }

    /** `parsePropertiesFile`, with the properties file given as its key lookups. */
    static method ParsePropertiesFile(conf: Option<Properties>) returns (r: Result<DxramConfiguration, Exception>)
      ensures conf.None? ==> r.Err?
      ensures conf.Some? ==> r.Ok? && fresh(r.value) && Parse(conf) == Ok(r.value.Value())
    {
      if conf.None? {
        return Err(ConfigurationLoadFailed);
      }
      var p := conf.value;
      var c := new DxramConfiguration();
      if HOME_PATH_KEY in p.strings {
        c.SetHomePath(Some(p.strings[HOME_PATH_KEY]));
      }
      if NUM_MACHINES_KEY in p.integers {
        c.SetNumMachines(p.integers[NUM_MACHINES_KEY]);
      } else {
        c.SetNumMachines(1);
      }
      if NUM_THREADS_KEY in p.integers {
        c.SetNumThreads(p.integers[NUM_THREADS_KEY]);
      } else {
        c.SetNumThreads(1);
      }
      r := Ok(c);
    }

    method SizeofObject(rules: SizeRules) returns (r: Result<int, Exception>)
      ensures r == SizeOf(rules, Value())
    {
      if homePath.None? {
        r := Err(NullPointer);
      } else {
        r := Ok(WrapInt(rules.stringSize(homePath.value) + 8));
      }
    }

    method ExportObject(out: seq<Token>) returns (r: Result<seq<Token>, Exception>)
      ensures Encode(Value()).Ok? ==> r == Ok(out + Encode(Value()).value)
      ensures Encode(Value()).Err? ==> r == Err(NullPointer)
    {
      if homePath.None? {
        r := Err(NullPointer);
      } else {
        r := Ok(out + [StrTok(homePath.value), IntTok(numMachines), IntTok(numThreads)]);
      }
    }

    /** `importObject` as written: the third read also lands in `numMachines`. */
    method ImportObject(input: seq<Token>) returns (rest: seq<Token>)
      modifies this
      ensures (Value(), rest) == DecodeAsWritten(input, old(Value()))
    {
      var h, ts1 := ReadString(input, homePath).0, ReadString(input, homePath).1;
      homePath := h;
      var m, ts2 := ReadInt(ts1, numMachines).0, ReadInt(ts1, numMachines).1;
      numMachines := m;
      var m', ts3 := ReadInt(ts2, numThreads).0, ReadInt(ts2, numThreads).1;
      numMachines := m';
      rest := ts3;
    }
  }
}
