/** The configuration loader as it runs: one bounded line at a time, each applied as soon as it is read. */
module ConfigLoad {
  import opened Bytes
  import opened ConfigApply
  import opened ConfigFile
  import opened Lines
  import opened RuntimeConfig
  import opened Text
  import opened Wrappers

  method ReadLine(r: Reader, raw: string) returns (next: Reader)
    requires r.config.profiles != []
    ensures next == Perform(r, Interpret(raw))
  {
    next := ReadTrimmed(r, Trim(CString(raw)));
  }

  /** One line: comments and blank lines are skipped, defects reported with the number of the line. */
  method ReadTrimmed(r: Reader, trimmed: string) returns (next: Reader)
    requires r.config.profiles != []
    ensures next == Perform(r, InterpretTrimmed(trimmed))
  {
    next := r.(lineNumber := r.lineNumber + 1);
    if trimmed == "" || trimmed[0] == '#' {
      return;
    }
    var separator := IndexOf(trimmed, '=');
    if separator == |trimmed| {
      return next.(diagnostics := r.diagnostics + [NoSeparator(next.lineNumber)]);
    }
    var key, value := Trim(trimmed[..separator]), Trim(trimmed[separator + 1..]);
    AsksFor(trimmed, separator, key, value);
    next := ReadAssignment(r, key, value);
  }

  method ReadAssignment(r: Reader, key: string, value: string) returns (next: Reader)
    requires r.config.profiles != []
    ensures next == Perform(r, Asked(key, value))
  {
    if key == "" || value == "" {
      var number := r.lineNumber + 1;
      return r.(lineNumber := number, diagnostics := r.diagnostics + [EmptyKeyOrValue(number)]);
    }
    next := ReadSetting(r, key, value);
  }

  method ReadSetting(r: Reader, key: string, value: string) returns (next: Reader)
    requires r.config.profiles != []
    ensures next == Perform(r, Assign(key, Recognize(key), value))
  {
    var applied := ApplySetting(r.config, key, value);
    var diagnostics := r.diagnostics;
    if applied.error.Some? {
      diagnostics := diagnostics + [Rejected(r.lineNumber + 1, key, applied.error.value)];
    }
    assert r.diagnostics + [] == r.diagnostics;
    next := Reader(applied.config, r.migrated || applied.migrated, r.lineNumber + 1, diagnostics);
  }

  method LoadRuntimeConfig(defaults: Config, file: FileRead) returns (report: LoadReport)
    requires defaults.profiles != []
    ensures report == Load(defaults, file)
    ensures Valid(defaults) && Clean(defaults) ==> Runs(report.config) && Clean(report.config)
  {
    if Valid(defaults) && Clean(defaults) {
      LoadedConfigIsValidAndClean(defaults, file);
      ValidMeansRuns(Load(defaults, file).config);
    }
    if file.Missing? {
      return LoadReport(defaults, false, []);
    }
    if file.ReadError? {
      return LoadReport(defaults, false, [Unreadable]);
    }
    var r := Reader(defaults, false, 0, []);
    var rest := file.text;
    while rest != ""
      invariant r.config.profiles != []
      invariant PerformAll(r, MapLines(Interpret, rest)) ==
                PerformAll(Reader(defaults, false, 0, []), MapLines(Interpret, file.text))
      decreases |rest|
    {
      var n := LineLength(rest);
      r := ReadLine(r, rest[..n]);
      rest := rest[n..];
    }
    report := FinishLoad(defaults, r);
  }

  method FinishLoad(defaults: Config, r: Reader) returns (report: LoadReport)
    ensures report == Finish(defaults, r)
  {
    var diagnostics := r.diagnostics;
    if r.migrated {
      diagnostics := diagnostics + [LegacyLoaded];
    }
    assert r.diagnostics + [] == r.diagnostics;
    var error := Validate(r.config);
    if error.Some? {
      return LoadReport(defaults, true, diagnostics + [InvalidConfiguration(error.value)]);
    }
    report := LoadReport(r.config, true, diagnostics);
  }
}
