/** Validation of the resources a job asks for against the limits of its queue
    (`pysqa/base/validate.py`, repeated as static helpers in `pysqa/utils/basic.py`
    and `pysqa/basic.py`).

    A limit or request is either a number or a string. A string that reads as a memory
    size (`"50G"`, `"1K"`, `"60000"`) is compared by its size in bytes, a plain number
    unit-less, and any other string by Python's string order. */
module Validate {
  import opened Wrappers
  import opened PyText

  /** A queue parameter as it arrives from a queue configuration or a caller. */
  datatype Value = Num(n: int) | Text(s: string)

  /** A queue's limits, keyed `cores_min`, `cores_max`, `run_time_max`, `memory_max`;
      an absent YAML entry is filled in as `None`. */
  type QueueDict = map<string, Option<Value>>

  // ---------------------------------------------------------------- memory strings

  predicate IsUnit(c: char) {
    c in "bBkKmMgGtT"
  }

  /** The power of 1024 a (lower-case) unit letter stands for. */
  function UnitExponent(c: char): nat {
    match c
    case 'b' => 0
    case 'k' => 1
    case 'm' => 2
    case 'g' => 3
    case _ => 4
  }

  function Pow1024(k: nat): (p: nat)
    ensures p >= 1
  {
    if k == 0 then 1 else 1024 * Pow1024(k - 1)
  }

  /** Digits, optionally followed by exactly one unit letter: the strings that are
      memory sizes. */
  predicate IsMemorySpec(s: string) {
    && |s| > 0
    && IsDigit(s[0])
    && (AllDigits(s) || (AllDigits(s[..|s| - 1]) && IsUnit(s[|s| - 1])))
  }

  /** Index of the first decimal digit of `s`, or `|s|`. */
  function FirstDigit(s: string): (i: nat)
    ensures i <= |s|
    ensures forall j :: 0 <= j < i ==> !IsDigit(s[j])
    ensures i < |s| ==> IsDigit(s[i])
  {
    if s == [] then 0 else if IsDigit(s[0]) then 0 else 1 + FirstDigit(s[1..])
  }

  /** End of the run of digits that starts at `i`. */
  function DigitRunEnd(s: string, i: nat): (j: nat)
    requires i <= |s|
    ensures i <= j <= |s|
    ensures forall k :: i <= k < j ==> IsDigit(s[k])
    ensures j < |s| ==> !IsDigit(s[j])
    decreases |s| - i
  {
    if i < |s| && IsDigit(s[i]) then DigitRunEnd(s, i + 1) else i
  }

  /** The first match of the regular expression `[0-9]+[bBkKmMgGtT]?` in `s`: the
      leftmost run of digits, taken greedily, and the unit letter right after it if any. */
  function FirstMatch(s: string): (m: Option<string>)
    ensures m.None? <==> forall j :: 0 <= j < |s| ==> !IsDigit(s[j])
  {
    var i := FirstDigit(s);
    if i == |s| then None
    else
      var j := DigitRunEnd(s, i);
      var k := if j < |s| && IsUnit(s[j]) then j + 1 else j;
      Some(s[i..k])
  }

  /** The regular expression matches the whole string exactly when the string is a memory size. */
  lemma MatchIsWholeIffMemorySpec(s: string)
    ensures FirstMatch(s) == Some(s) <==> IsMemorySpec(s)
  {
    if IsMemorySpec(s) {
      assert FirstDigit(s) == 0;
      var j := DigitRunEnd(s, 0);
      if AllDigits(s) {
        assert j == |s|;
      } else {
        assert !IsDigit(s[|s| - 1]) by { assert !AllDigits(s); }
        assert j == |s| - 1;
      }
      assert s[0..|s|] == s;
    }
    if FirstMatch(s) == Some(s) {
      var i := FirstDigit(s);
      var j := DigitRunEnd(s, i);
      var k := if j < |s| && IsUnit(s[j]) then j + 1 else j;
      assert |s[i..k]| == |s|;
      assert i == 0 && k == |s|;
      if j < |s| {
        assert s[..|s| - 1] == s[..j];
      }
    }
  }

  /** `_is_memory_string`: `findall(...)[0] == value`, an IndexError when nothing matches. */
  function IsMemoryString(s: string): (r: Result<bool>)
    ensures r.Err? ==> r.error == IndexError
  {
    match FirstMatch(s)
    case None => Err(IndexError)
    case Some(m) => Ok(m == s)
  }

  /** The size in bytes of a memory string; a bare number counts as megabytes. */
  function MemoryBytes(s: string): nat
    requires IsMemorySpec(s)
  {
    if AllDigits(s) then DigitsValue(s) * Pow1024(2)
    else DigitsValue(s[..|s| - 1]) * Pow1024(UnitExponent(LowerChar(s[|s| - 1])))
  }

  /** `_memory_spec_string_to_value` with the default unit `m` and target unit `b`, applied to
      a string (numbers are never passed to it). */
  function Convert(v: Value): (r: Result<Value>)
    ensures r.Err? ==> r.error == IndexError && v.Text?
    ensures v.Num? ==> r == Ok(v)
  {
    match v
    case Num(_) => Ok(v)
    case Text(s) =>
      var isMemory :- IsMemoryString(s);
      if isMemory then
        MatchIsWholeIffMemorySpec(s);
        Ok(Num(MemoryBytes(s)))
      else Ok(v)
  }

  function ConvertOpt(v: Option<Value>): (r: Result<Option<Value>>)
    ensures v.None? ==> r == Ok(None)
  {
    match v
    case None => Ok(None)
    case Some(x) =>
      var c :- Convert(x);
      Ok(Some(c))
  }

  // ---------------------------------------------------------------- comparison

  /** Python's `<` between two strings: code-point order. */
  predicate StrLess(a: string, b: string) {
    if a == [] then b != []
    else if b == [] then false
    else if a[0] != b[0] then a[0] < b[0]
    else StrLess(a[1..], b[1..])
  }

  /** Python's `a < b` on converted values: a TypeError between a number and a string. */
  function Less(a: Value, b: Value): (r: Result<bool>)
    ensures r.Err? <==> a.Num? != b.Num?
    ensures a.Num? && b.Num? ==> r == Ok(a.n < b.n)
  {
    match (a, b)
    case (Num(x), Num(y)) => Ok(x < y)
    case (Text(x), Text(y)) => Ok(StrLess(x, y))
    case _ => Err(TypeError)
  }

  // ---------------------------------------------------------------- value_in_range

  /** `value_in_range`: a value below the minimum comes back as the minimum, one above the
      maximum as the maximum, exactly as they were given (unconverted); with no value, the
      minimum, else the maximum, stands in. All three are converted before any comparison. */
  function ValueInRange(value: Option<Value>, valueMin: Option<Value>, valueMax: Option<Value>)
    : (r: Result<Option<Value>>)
    ensures r.Ok? ==> r.value == value || r.value == valueMin || r.value == valueMax
    ensures value.None? ==> r == Ok(if valueMin.Some? then valueMin else valueMax)
    ensures r.Err? ==> r.error in {IndexError, TypeError}
  {
    match value
    case None => Ok(if valueMin.Some? then valueMin else valueMax)
    case Some(v) =>
      var v' :- Convert(v);
      var lo :- ConvertOpt(valueMin);
      var hi :- ConvertOpt(valueMax);
      var below :- if lo.Some? then Less(v', lo.value) else Ok(false);
      if below then Ok(valueMin)
      else
        var above :- if hi.Some? then Less(hi.value, v') else Ok(false);
        if above then Ok(valueMax) else Ok(value)
  }

  /** A value with a size: a number, or a memory string. */
  predicate Sized(v: Value) {
    v.Num? || IsMemorySpec(v.s)
  }

  function Size(v: Value): int
    requires Sized(v)
  {
    if v.Num? then v.n else MemoryBytes(v.s)
  }

  predicate SizedOpt(v: Option<Value>) {
    v.None? || Sized(v.value)
  }

  lemma ConvertSized(v: Value)
    requires Sized(v)
    ensures Convert(v) == Ok(Num(Size(v)))
  {
    if v.Text? {
      MatchIsWholeIffMemorySpec(v.s);
    }
  }

  /** A string that is not a memory size is kept as a string when it holds a digit, and
      makes `_is_memory_string` fail with an IndexError when it holds none. */
  lemma ConvertUnsized(s: string)
    requires !IsMemorySpec(s)
    ensures (exists j :: 0 <= j < |s| && IsDigit(s[j])) ==> Convert(Text(s)) == Ok(Text(s))
    ensures (forall j :: 0 <= j < |s| ==> !IsDigit(s[j])) ==> Convert(Text(s)) == Err(IndexError)
  {
    MatchIsWholeIffMemorySpec(s);
  }

  /** For sized values, whatever the limits: a value below the minimum gives back the minimum
      as it was given, otherwise one above the maximum gives back the maximum as it was given,
      otherwise the value itself. The minimum is tested first, so when the minimum exceeds the
      maximum a value below both still yields the minimum. */
  lemma ValueInRangeSelects(value: Value, valueMin: Option<Value>, valueMax: Option<Value>)
    requires Sized(value) && SizedOpt(valueMin) && SizedOpt(valueMax)
    ensures valueMin.Some? && Size(value) < Size(valueMin.value) ==>
      ValueInRange(Some(value), valueMin, valueMax) == Ok(valueMin)
    ensures (valueMin.None? || Size(valueMin.value) <= Size(value))
      && valueMax.Some? && Size(valueMax.value) < Size(value)
      ==> ValueInRange(Some(value), valueMin, valueMax) == Ok(valueMax)
    ensures (valueMin.None? || Size(valueMin.value) <= Size(value))
      && (valueMax.None? || Size(value) <= Size(valueMax.value))
      ==> ValueInRange(Some(value), valueMin, valueMax) == Ok(Some(value))
  {
    ConvertSized(value);
    if valueMin.Some? {
      ConvertSized(valueMin.value);
    }
    if valueMax.Some? {
      ConvertSized(valueMax.value);
    }
  }

  /** With the limits the wrong way round, a value below both comes back as the minimum. */
  lemma ValueInRangeMinimumFirst()
    ensures ValueInRange(Some(Num(1)), Some(Num(10)), Some(Num(5))) == Ok(Some(Num(10)))
  {
    ValueInRangeSelects(Num(1), Some(Num(10)), Some(Num(5)));
  }

  /** For sized values and limits that are consistent (minimum at most the maximum), the
      result never fails, lies within the limits, and is the value itself whenever the
      value already lay within them. */
  lemma ValueInRangeClamps(value: Value, valueMin: Option<Value>, valueMax: Option<Value>)
    requires Sized(value) && SizedOpt(valueMin) && SizedOpt(valueMax)
    requires valueMin.Some? && valueMax.Some? ==> Size(valueMin.value) <= Size(valueMax.value)
    ensures ValueInRange(Some(value), valueMin, valueMax).Ok?
    ensures ValueInRange(Some(value), valueMin, valueMax).value.Some?
    ensures Sized(ValueInRange(Some(value), valueMin, valueMax).value.value)
    ensures valueMin.Some? ==>
      Size(valueMin.value) <= Size(ValueInRange(Some(value), valueMin, valueMax).value.value)
    ensures valueMax.Some? ==>
      Size(ValueInRange(Some(value), valueMin, valueMax).value.value) <= Size(valueMax.value)
    ensures (valueMin.None? || Size(valueMin.value) <= Size(value))
      && (valueMax.None? || Size(value) <= Size(valueMax.value))
      ==> ValueInRange(Some(value), valueMin, valueMax) == Ok(Some(value))
  {
    ConvertSized(value);
    if valueMin.Some? {
      ConvertSized(valueMin.value);
    }
    if valueMax.Some? {
      ConvertSized(valueMax.value);
    }
  }

  /** Clamping a clamped value again changes nothing. */
  lemma ValueInRangeIdempotent(value: Value, valueMin: Option<Value>, valueMax: Option<Value>)
    requires Sized(value) && SizedOpt(valueMin) && SizedOpt(valueMax)
    requires valueMin.Some? && valueMax.Some? ==> Size(valueMin.value) <= Size(valueMax.value)
    ensures ValueInRange(Some(value), valueMin, valueMax).Ok?
    ensures var r := ValueInRange(Some(value), valueMin, valueMax).value;
      ValueInRange(r, valueMin, valueMax) == Ok(r)
  {
    ValueInRangeClamps(value, valueMin, valueMax);
    var r := ValueInRange(Some(value), valueMin, valueMax).value;
    ValueInRangeClamps(r.value, valueMin, valueMax);
  }

  /** The sizes of the memory strings used in the examples below. */
  lemma MemorySizes()
    ensures Sized(Text("1K")) && Size(Text("1K")) == 1024
    ensures Sized(Text("50G")) && Size(Text("50G")) == 50 * 1024 * 1024 * 1024
    ensures Sized(Text("60G")) && Size(Text("60G")) == 60 * 1024 * 1024 * 1024
    ensures Sized(Text("70G")) && Size(Text("70G")) == 70 * 1024 * 1024 * 1024
    ensures Sized(Text("60000M")) && Size(Text("60000M")) == 60000 * 1024 * 1024
    ensures Sized(Text("60000")) && Size(Text("60000")) == 60000 * 1024 * 1024
  {
    SizeKilo();
    SizeGiga('5', 50);
    SizeGiga('6', 60);
    SizeGiga('7', 70);
    SizeMega();
  }

  lemma SizeKilo()
    ensures Sized(Text("1K")) && Size(Text("1K")) == 1024
  {
    assert DigitsValue("1") == 1 by {
      assert "1"[..0] == [];
    }
    assert "1K" == "1" + ['K'];
    SizeWithUnit("1", 'K');
    assert LowerChar('K') == 'k';
    assert Pow1024(1) == 1024;
  }

  /** `<digit>0G`: a whole number of tens of gigabytes. */
  lemma SizeGiga(c: char, n: nat)
    requires IsDigit(c) && n == 10 * DigitValue(c)
    ensures Sized(Text([c, '0', 'G'])) && Size(Text([c, '0', 'G'])) == n * 1024 * 1024 * 1024
  {
    var d := [c, '0'];
    assert DigitsValue(d) == n by {
      assert d[..1] == [c];
      assert DigitsValue([c]) == DigitValue(c) by {
        assert [c][..0] == [];
      }
      assert DigitValue('0') == 0;
    }
    assert [c, '0', 'G'] == d + ['G'];
    SizeWithUnit(d, 'G');
    assert LowerChar('G') == 'g';
    assert Pow1024(3) == 1024 * 1024 * 1024 by {
      assert Pow1024(2) == 1024 * 1024;
    }
  }

  lemma SizeMega()
    ensures Sized(Text("60000M")) && Size(Text("60000M")) == 60000 * 1024 * 1024
    ensures Sized(Text("60000")) && Size(Text("60000")) == 60000 * 1024 * 1024
  {
    DigitsExamples();
    assert "60000M" == "60000" + ['M'];
    SizeWithUnit("60000", 'M');
    SizeBare("60000");
    assert LowerChar('M') == 'm';
  }

  lemma DigitsExamples()
    ensures AllDigits("60000") && DigitsValue("60000") == 60000
  {
    assert "60000"[..4] == "6000" && "6000"[..3] == "600" && "600"[..2] == "60" && "60"[..1] == "6";
    assert DigitsValue("6") == 6;
  }

  /** Digits followed by a unit letter: the number times the unit's power of 1024. */
  lemma SizeWithUnit(d: string, u: char)
    requires d != [] && AllDigits(d) && IsUnit(u)
    ensures Sized(Text(d + [u]))
    ensures Size(Text(d + [u])) == DigitsValue(d) * Pow1024(UnitExponent(LowerChar(u)))
  {
    var s := d + [u];
    assert s[..|s| - 1] == d;
    assert s[0] == d[0];
    assert !AllDigits(s) by {
      assert s[|s| - 1] == u;
    }
  }

  /** Bare digits count as megabytes. */
  lemma SizeBare(d: string)
    requires d != [] && AllDigits(d)
    ensures Sized(Text(d)) && Size(Text(d)) == DigitsValue(d) * Pow1024(2)
  {
  }

  /** A number is measured against a memory limit in bytes. */
  lemma ValueInRangeNumberExamples()
    ensures ValueInRange(Some(Num(1023)), Some(Text("1K")), None) == Ok(Some(Text("1K")))
    ensures ValueInRange(Some(Num(1035)), Some(Text("1K")), None) == Ok(Some(Num(1035)))
    ensures ValueInRange(Some(Num(1035)), None, Some(Text("1K"))) == Ok(Some(Text("1K")))
  {
    MemorySizes();
    ConvertSized(Text("1K"));
  }

  /** A memory string is compared by size, not as text: `"60000M"` exceeds `"50G"`, and a
      bare `"60000"` means megabytes. */
  lemma ValueInRangeMemoryExamples()
    ensures ValueInRange(Some(Text("60000M")), Some(Text("1K")), Some(Text("50G")))
      == Ok(Some(Text("50G")))
    ensures ValueInRange(Some(Text("60000")), Some(Text("1K")), Some(Text("50G")))
      == Ok(Some(Text("50G")))
    ensures ValueInRange(Some(Text("60000M")), Some(Text("60G")), Some(Text("70G")))
      == Ok(Some(Text("60G")))
  {
    MemorySizes();
    ValueInRangeClamps(Text("60000M"), Some(Text("1K")), Some(Text("50G")));
    ValueInRangeClamps(Text("60000"), Some(Text("1K")), Some(Text("50G")));
    ValueInRangeClamps(Text("60000M"), Some(Text("60G")), Some(Text("70G")));
    ConvertSized(Text("60000M"));
    ConvertSized(Text("60000"));
    ConvertSized(Text("1K"));
    ConvertSized(Text("50G"));
    ConvertSized(Text("60G"));
    ConvertSized(Text("70G"));
  }

  // ---------------------------------------------------------------- check_queue_parameters

  const CoresMin := "cores_min"
  const CoresMax := "cores_max"
  const RunTimeMax := "run_time_max"
  const MemoryMax := "memory_max"

  /** `check_queue_parameters`: cores are held between the queue's minimum and maximum,
      run time and memory only below the queue's maxima. A missing key is a KeyError,
      raised in the order the dictionary is read. */
  function CheckQueueParameters(activeQueue: QueueDict, cores: Option<Value>,
                                runTimeMax: Option<Value>, memoryMax: Option<Value>)
    : (r: Result<(Option<Value>, Option<Value>, Option<Value>)>)
    ensures r.Ok? ==>
              && CoresMin in activeQueue && CoresMax in activeQueue
              && RunTimeMax in activeQueue && MemoryMax in activeQueue
    ensures CoresMin !in activeQueue ==> r == Err(KeyError)
    ensures r.Ok? ==>
              || r.value.0 == cores
              || r.value.0 == activeQueue[CoresMin]
              || r.value.0 == activeQueue[CoresMax]
    ensures r.Ok? ==> r.value.1 == runTimeMax || r.value.1 == activeQueue[RunTimeMax]
    ensures r.Ok? ==> r.value.2 == memoryMax || r.value.2 == activeQueue[MemoryMax]
  {
    if CoresMin !in activeQueue || CoresMax !in activeQueue then Err(KeyError)
    else
      var c :- ValueInRange(cores, activeQueue[CoresMin], activeQueue[CoresMax]);
      if RunTimeMax !in activeQueue then Err(KeyError)
      else
        var t :- ValueInRange(runTimeMax, None, activeQueue[RunTimeMax]);
        if MemoryMax !in activeQueue then Err(KeyError)
        else
          var m :- ValueInRange(memoryMax, None, activeQueue[MemoryMax]);
          Ok((c, t, m))
  }

  /** The core limits never influence the run time or the memory granted. */
  lemma CheckQueueParametersCoresIndependent(q: QueueDict, lo: Option<Value>, hi: Option<Value>,
                                             cores: Option<Value>, t: Option<Value>, m: Option<Value>)
    requires CheckQueueParameters(q, cores, t, m).Ok?
    requires CheckQueueParameters(q[CoresMin := lo][CoresMax := hi], cores, t, m).Ok?
    ensures CheckQueueParameters(q[CoresMin := lo][CoresMax := hi], cores, t, m).value.1
      == CheckQueueParameters(q, cores, t, m).value.1
    ensures CheckQueueParameters(q[CoresMin := lo][CoresMax := hi], cores, t, m).value.2
      == CheckQueueParameters(q, cores, t, m).value.2
  {
    var q' := q[CoresMin := lo][CoresMax := hi];
    assert q'[RunTimeMax] == q[RunTimeMax] && q'[MemoryMax] == q[MemoryMax];
  }

  /** Numbers within every limit pass through unchanged. */
  lemma CheckQueueParametersExample()
    ensures CheckQueueParameters(
      map[CoresMin := Some(Num(1)), CoresMax := Some(Num(100)),
          MemoryMax := Some(Num(12)), RunTimeMax := Some(Num(1000))],
      Some(Num(1)), Some(Num(100)), Some(Num(10)))
      == Ok((Some(Num(1)), Some(Num(100)), Some(Num(10))))
  {
  }

  /** `value_error_if_none`: a ValueError for a missing value, a TypeError for one that is
      not a string. */
  function ValueErrorIfNone(value: Option<Value>): (r: Outcome)
    ensures r.Pass? <==> value.Some? && value.value.Text?
    ensures value.None? ==> r == Fail(ValueError)
    ensures r.Fail? && value.Some? ==> r.error == TypeError
  {
    match value
    case None => Fail(ValueError)
    case Some(Num(_)) => Fail(TypeError)
    case Some(Text(_)) => Pass
  }
}
