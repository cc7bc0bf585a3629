/** Engine difficulty levels, their names, their default search settings, and how a
    level's settings are written into a query. The settings file is a parameter: its
    content as the game would find it, already read and parsed. */
module Settings {
  import opened Json

  datatype Level = Level1 | Level2 | Level3 | Level4 | Level5 | Eval

  /** `getLevel`: 1 to 4 name their level; 5 and every other number mean level 5. */
  function GetLevel(k: int): (l: Level)
    ensures k == 1 <==> l == Level1
    ensures k == 2 <==> l == Level2
    ensures k == 3 <==> l == Level3
    ensures k == 4 <==> l == Level4
    ensures l != Eval
  {
    if k == 4 then Level4
    else if k == 3 then Level3
    else if k == 2 then Level2
    else if k == 1 then Level1
    else Level5
  }

  /** `getLevelString`: the key of a level in the settings file; Eval shares level 5's. */
  function GetLevelString(l: Level): string {
    match l
    case Level4 => "LEVEL_4"
    case Level3 => "LEVEL_3"
    case Level2 => "LEVEL_2"
    case Level1 => "LEVEL_1"
    case _ => "LEVEL_5"
  }

  /** The name of a level is "LEVEL_" followed by the number it was chosen by. */
  lemma LevelStringOfLevel(k: int)
    requires 1 <= k <= 5
    ensures GetLevelString(GetLevel(k)) == "LEVEL_" + [('0' as int + k) as char]
  {
  }

  /** Distinct levels 1 to 5 have distinct names; Eval is named like level 5. */
  lemma LevelStringInjective(a: Level, b: Level)
    requires a != Eval && b != Eval
    ensures GetLevelString(a) == GetLevelString(b) <==> a == b
    ensures GetLevelString(Eval) == GetLevelString(Level5)
  {
    if GetLevelString(a) == GetLevelString(b) {
      assert GetLevelString(a)[6] == GetLevelString(b)[6];
    }
  }

  /** A level's search settings: the visit budget, the root policy temperature and the
      root first-play-urgency reduction. */
  datatype Setting = Setting(maxVisits: int, temperature: real, fpuReductionMax: real)

  /** `getDefaultSetting`; Eval falls through to level 5. */
  function DefaultSetting(l: Level): (s: Setting) {
    match l
    case Level4 => Setting(60, 0.9, 0.1)
    case Level3 => Setting(150, 0.6, 0.25)
    case Level2 => Setting(400, 0.45, 0.3)
    case Level1 => Setting(800, 0.3, 0.5)
    case _ => Setting(20, 1.4, 0.0)
  }

  /** The number a level stands for, Eval counting as 5. */
  function Rank(l: Level): int {
    match l
    case Level1 => 1
    case Level2 => 2
    case Level3 => 3
    case Level4 => 4
    case _ => 5
  }

  /** The default visit budget strictly shrinks from level 1 to level 5, and Eval has
      level 5's defaults. */
  lemma DefaultVisitsDecrease(a: Level, b: Level)
    requires Rank(a) < Rank(b)
    ensures DefaultSetting(a).maxVisits > DefaultSetting(b).maxVisits
    ensures DefaultSetting(Eval) == DefaultSetting(Level5)
  {
  }

  /** The settings file as the game finds it: not there, not valid JSON, or parsed into
      per-level entries and an evaluation entry. An entry is the record read from the
      file, each missing key already replaced by its default. */
  datatype SettingsFile =
    | Unavailable
    | Unparseable
    | Parsed(levels: map<string, Setting>, evaluation: Setting)

  /** `getSetting`: the evaluation entry for Eval; for a level, its entry when the file
      has one; the default settings whenever the file is unavailable, unparseable or
      lacks the level's entry. */
  function GetSetting(l: Level, file: SettingsFile): (s: Setting)
    ensures !file.Parsed? ==> s == DefaultSetting(l)
    ensures file.Parsed? && l == Eval ==> s == file.evaluation
    ensures file.Parsed? && l != Eval ==>
      s == (if GetLevelString(l) in file.levels then file.levels[GetLevelString(l)] else DefaultSetting(l))
  {
    match file
    case Unavailable => DefaultSetting(l)
    case Unparseable => DefaultSetting(l)
    case Parsed(levels, evaluation) =>
      if l == Eval then evaluation
      else
        var key := GetLevelString(l);
        if key !in levels then DefaultSetting(l) else levels[key]
  }

  /** `applyDiffLevel`: write the level's three settings into the request and nothing
      else. */
  function ApplyDiffLevel(req: Json, l: Level, file: SettingsFile): (r: Json)
    requires req.JObj?
    ensures r.JObj? && r.fields.Keys == req.fields.Keys + {"maxVisits", "rootPolicyTemperature", "rootFpuReductionMax"}
    ensures forall k :: k in req.fields && k !in {"maxVisits", "rootPolicyTemperature", "rootFpuReductionMax"} ==>
      r.fields[k] == req.fields[k]
    ensures r.fields["maxVisits"] == JInt(GetSetting(l, file).maxVisits)
    ensures r.fields["rootPolicyTemperature"] == JNum(GetSetting(l, file).temperature)
    ensures r.fields["rootFpuReductionMax"] == JNum(GetSetting(l, file).fpuReductionMax)
  {
    var setting := GetSetting(l, file);
    Set(Set(Set(req, "maxVisits", JInt(setting.maxVisits)),
            "rootPolicyTemperature", JNum(setting.temperature)),
        "rootFpuReductionMax", JNum(setting.fpuReductionMax))
  }

  /** Applying a level twice is applying it once. */
  lemma ApplyDiffLevelIdempotent(req: Json, l: Level, file: SettingsFile)
    requires req.JObj?
    ensures ApplyDiffLevel(ApplyDiffLevel(req, l, file), l, file) == ApplyDiffLevel(req, l, file)
  {
    var once := ApplyDiffLevel(req, l, file);
    var twice := ApplyDiffLevel(once, l, file);
    assert twice.fields == once.fields;
  }
}
