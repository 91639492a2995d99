/**
 * SoundModule: background music and sound effects over the engine's audio
 * API, with the on/off switches and volumes persisted in local storage.
 *
 * The audio engine is an observer: every call the module makes into it is
 * appended to `engine`, and the ids it hands out (for a new piece of
 * music or a new effect) are parameters of the operations that play.
 * Which effect ids the engine reports in a falsy state is a parameter of
 * the effect cleanup.
 */
module Sound {
  import opened Common

  /** A JavaScript number as far as the module cares: a real, or NaN. */
  datatype Num = Finite(value: real) | NaN

  /** `v < 0 || v > 1`: false for NaN, which therefore passes the volume check. */
  predicate OutOfRange(n: Num)
  {
    n.Finite? && (n.value < 0.0 || n.value > 1.0)
  }

  /**
   * A local-storage entry, classified by what parseFloat makes of it: a
   * string it reads as a number ("0.5", "1abc", or the string form of a
   * number the module wrote) is a Numeral holding that number; any other
   * string ("true", "false", "") is Text, and reads as NaN.
   */
  datatype Stored = Text(text: string) | Numeral(number: Num)

  datatype SoundType = Bgm | Effect

  /** ISoundConfig; a clip that is null or undefined is `None`, and so is a missing volume. */
  datatype SoundConfig = SoundConfig(clip: Option<nat>, volume: Option<Num>, loop: bool, kind: SoundType)

  datatype Music = Music(clip: nat, loop: bool)

  /** The calls the module makes into the audio engine. */
  datatype EngineCall =
    | StopAudio(id: nat)
    | PlayMusicCall(clip: nat, loop: bool)
    | PauseMusic
    | ResumeMusic
    | PauseAllEffects
    | ResumeAllEffects
    | StopEffect(id: nat)
    | PlayEffectCall(clip: nat, loop: bool)
    | EffectVolumeSet(id: nat, volume: Num)
    | MusicVolumeSet(volume: Num)
    | EffectsVolumeSet(volume: Num)

  const EffectConfigKey: string := "isEffectOn"
  const MusicConfigKey: string := "isMusicOn"
  const EffectVolumeKey: string := "effectVolume"
  const MusicVolumeKey: string := "musicVolume"
  const DefaultVolume: real := 0.8

  /** `value.toString()` for a boolean. */
  function BoolText(b: bool): string
  {
    if b then "true" else "false"
  }

  /** What getConfig returns: true when the key is missing, else whether the stored string is "true". */
  function ConfigRead(storage: map<string, Stored>, key: string): bool
  {
    key !in storage || storage[key] == Text("true")
  }

  /** What getConfig leaves in storage: a missing key gets "true". */
  function ConfigStore(storage: map<string, Stored>, key: string): map<string, Stored>
  {
    if key in storage then storage else storage[key := Text("true")]
  }

  /**
   * getConfig can be repeated: it writes at most the default it reports,
   * after which the key is present and reads the same without a write;
   * and a switch persisted with setConfig reads back as the value set.
   */
  lemma ConfigRoundTrip(storage: map<string, Stored>, key: string, b: bool)
    ensures ConfigRead(ConfigStore(storage, key), key) == ConfigRead(storage, key)
    ensures key in ConfigStore(storage, key) && ConfigStore(ConfigStore(storage, key), key) == ConfigStore(storage, key)
    ensures ConfigRead(storage[key := Text(BoolText(b))], key) == b
    ensures forall k :: k != key && k in storage ==> k in ConfigStore(storage, key) && ConfigStore(storage, key)[k] == storage[k]
  {
  }

  /**
   * What getVolumeConfig returns: the default when the key is missing,
   * else the stored number; a string such as "true" parses to NaN.
   */
  function VolumeRead(storage: map<string, Stored>, key: string, default: real): Num
  {
    if key !in storage then Finite(default)
    else match storage[key]
      case Numeral(n) => n
      case Text(_) => NaN
  }

  /** What getVolumeConfig leaves in storage: a missing key gets the default. */
  function VolumeStore(storage: map<string, Stored>, key: string, default: real): map<string, Stored>
  {
    if key in storage then storage else storage[key := Numeral(Finite(default))]
  }

  /** A volume persisted by a setter reads back as set, and the default written on first read reads back too. */
  lemma VolumeRoundTrip(storage: map<string, Stored>, key: string, n: Num, default: real)
    ensures VolumeRead(storage[key := Numeral(n)], key, default) == n
    ensures VolumeRead(VolumeStore(storage, key, default), key, default) == VolumeRead(storage, key, default)
    ensures key !in storage ==> VolumeRead(storage, key, default) == Finite(default)
  {
  }

  predicate NoDuplicates(ids: seq<nat>)
  {
    forall i, j :: 0 <= i < j < |ids| ==> ids[i] != ids[j]
  }

  /** `Set.add`: a new id joins the end, a present one changes nothing. */
  function AddId(ids: seq<nat>, id: nat): (r: seq<nat>)
    ensures NoDuplicates(ids) ==> NoDuplicates(r)
    ensures forall x :: x in r <==> x in ids || x == id
  {
    if id in ids then ids else ids + [id]
  }

  /** The ids left after the cleanup, in their order: those not reported idle. */
  function Survivors(ids: seq<nat>, idle: set<nat>): seq<nat>
  {
    if ids == [] then [] else Survivors(ids[..|ids| - 1], idle) + (if ids[|ids| - 1] in idle then [] else [ids[|ids| - 1]])
  }

  /** The cleanup drops exactly the idle ids and keeps the set free of duplicates. */
  lemma {:induction false} SurvivorsExact(ids: seq<nat>, idle: set<nat>)
    ensures forall x :: x in Survivors(ids, idle) <==> x in ids && x !in idle
    ensures NoDuplicates(ids) ==> NoDuplicates(Survivors(ids, idle))
    ensures |Survivors(ids, idle)| <= |ids|
  {
    if ids != [] {
      var init := ids[..|ids| - 1];
      SurvivorsExact(init, idle);
      assert ids == init + [ids[|ids| - 1]];
      if NoDuplicates(ids) {
        assert NoDuplicates(init);
        assert ids[|ids| - 1] !in init;
      }
    }
  }

  /** The engine calls stopAllEffects makes: one stop per id, in insertion order. */
  function StopCalls(ids: seq<nat>): (r: seq<EngineCall>)
    ensures |r| == |ids| && forall i :: 0 <= i < |ids| ==> r[i] == StopEffect(ids[i])
  {
    if ids == [] then [] else StopCalls(ids[..|ids| - 1]) + [StopEffect(ids[|ids| - 1])]
  }

  class SoundModule {
    /** m_isMusicOn and m_isEffectOn: null until onInit or the first switch. */
    var musicOn: Option<bool>
    var effectOn: Option<bool>
    var bgmId: Option<nat>
    /** m_effectIDs, in insertion order. */
    var effectIds: seq<nat>
    var effectVolume: Num
    var musicVolume: Num
    var currentMusic: Option<Music>
    /** cc.sys.localStorage. */
    var storage: map<string, Stored>
    /** Every call into the audio engine so far. */
    var engine: seq<EngineCall>

    /** A music id is held exactly while there is current music, and no effect id is held twice. */
    ghost predicate Valid()
      reads this
    {
      NoDuplicates(effectIds) && (bgmId.Some? <==> currentMusic.Some?)
    }

    constructor (initial: map<string, Stored>)
      ensures Valid() && storage == initial && engine == [] && effectIds == []
      ensures musicOn.None? && effectOn.None? && bgmId.None? && currentMusic.None?
      ensures effectVolume == Finite(1.0) && musicVolume == Finite(1.0)
    {
      musicOn, effectOn, bgmId, effectIds := None, None, None, [];
      effectVolume, musicVolume, currentMusic := Finite(1.0), Finite(1.0), None;
      storage, engine := initial, [];
    }

    /** getConfig: a missing key is written as "true" and reads as true. */
    method GetConfig(key: string) returns (on: bool)
      modifies this`storage
      ensures on == ConfigRead(old(storage), key) && storage == ConfigStore(old(storage), key)
    {
      if key !in storage {
        storage := storage[key := Text("true")];
        return true;
      }
      on := storage[key] == Text("true");
    }

    /** getVolumeConfig: a missing key is written with the default, which is returned. */
    method GetVolumeConfig(key: string, default: real) returns (volume: Num)
      modifies this`storage
      ensures volume == VolumeRead(old(storage), key, default) && storage == VolumeStore(old(storage), key, default)
    {
      if key !in storage {
        storage := storage[key := Numeral(Finite(default))];
        return Finite(default);
      }
      match storage[key]
      case Numeral(n) => volume := n;
      case Text(_) => volume := NaN;
    }

    /** onInit: the switches and volumes are read from storage and the volumes handed to the engine. */
    method OnInit()
      requires Valid()
      modifies this
      ensures Valid() && effectIds == old(effectIds) && bgmId == old(bgmId) && currentMusic == old(currentMusic)
      ensures musicOn == Some(ConfigRead(old(storage), MusicConfigKey))
      ensures effectOn == Some(ConfigRead(ConfigStore(old(storage), MusicConfigKey), EffectConfigKey))
      ensures musicOn.Some? && effectOn.Some?
      ensures var switches := ConfigStore(ConfigStore(old(storage), MusicConfigKey), EffectConfigKey);
              && effectVolume == VolumeRead(switches, EffectVolumeKey, DefaultVolume)
              && musicVolume == VolumeRead(VolumeStore(switches, EffectVolumeKey, DefaultVolume), MusicVolumeKey, DefaultVolume)
              && storage == VolumeStore(VolumeStore(switches, EffectVolumeKey, DefaultVolume), MusicVolumeKey, DefaultVolume)
      ensures engine == old(engine) + [MusicVolumeSet(musicVolume), EffectsVolumeSet(effectVolume)]
    {
      var music := GetConfig(MusicConfigKey);
      var effect := GetConfig(EffectConfigKey);
      musicOn, effectOn := Some(music), Some(effect);
      effectVolume := GetVolumeConfig(EffectVolumeKey, DefaultVolume);
      musicVolume := GetVolumeConfig(MusicVolumeKey, DefaultVolume);
      engine := engine + [MusicVolumeSet(musicVolume), EffectsVolumeSet(effectVolume)];
    }

    /** onDestroy: every effect and the music are stopped. */
    method OnDestroy()
      requires Valid()
      modifies this
      ensures Valid() && effectIds == [] && bgmId.None? && currentMusic.None?
      ensures engine == old(engine) + StopCalls(old(effectIds)) + (if old(bgmId).Some? then [StopAudio(old(bgmId).value)] else [])
      ensures musicOn == old(musicOn) && effectOn == old(effectOn) && storage == old(storage)
    {
      StopAllEffects();
      StopMusic();
      effectIds := [];
    }

    /**
     * switchMusic: the current value changes nothing; otherwise the switch
     * is stored and persisted and the music resumed or paused.
     */
    method SwitchMusic(isOn: bool)
      requires Valid()
      modifies this`musicOn, this`storage, this`engine
      ensures Valid() && musicOn == Some(isOn)
      ensures old(musicOn) == Some(isOn) ==> storage == old(storage) && engine == old(engine)
      ensures old(musicOn) != Some(isOn) ==>
                && storage == old(storage)[MusicConfigKey := Text(BoolText(isOn))]
                && engine == old(engine) + [if isOn then ResumeMusic else PauseMusic]
    {
      if musicOn == Some(isOn) {
        return;
      }
      musicOn := Some(isOn);
      storage := storage[MusicConfigKey := Text(BoolText(isOn))];
      engine := engine + [if isOn then ResumeMusic else PauseMusic];
    }

    /**
     * switchEffect: the current value changes nothing; otherwise the switch
     * is stored and persisted, and switching off stops every effect.
     */
    method SwitchEffect(isOn: bool)
      requires Valid()
      modifies this`effectOn, this`storage, this`engine, this`effectIds
      ensures Valid() && effectOn == Some(isOn)
      ensures old(effectOn) == Some(isOn) ==> storage == old(storage) && engine == old(engine) && effectIds == old(effectIds)
      ensures old(effectOn) != Some(isOn) ==> storage == old(storage)[EffectConfigKey := Text(BoolText(isOn))]
      ensures old(effectOn) != Some(isOn) && isOn ==> engine == old(engine) && effectIds == old(effectIds)
      ensures old(effectOn) != Some(isOn) && !isOn ==> engine == old(engine) + StopCalls(old(effectIds)) && effectIds == []
    {
      if effectOn == Some(isOn) {
        return;
      }
      effectOn := Some(isOn);
      storage := storage[EffectConfigKey := Text(BoolText(isOn))];
      if !isOn {
        StopAllEffects();
      }
    }

    /**
     * play: without a clip nothing happens; a BGM request for the clip and
     * loop already current is ignored; otherwise the music or the effect
     * is played. `newId` is the id the engine hands out if it plays.
     */
    method Play(config: SoundConfig, newId: nat, idle: set<nat>)
      requires Valid()
      modifies this`bgmId, this`currentMusic, this`engine, this`effectIds
      ensures Valid()
      ensures config.clip.None? ==> engine == old(engine) && bgmId == old(bgmId) && effectIds == old(effectIds) && currentMusic == old(currentMusic)
      ensures config.clip.Some? && config.kind == Bgm && old(currentMusic) == Some(Music(config.clip.value, config.loop)) ==>
                engine == old(engine) && bgmId == old(bgmId) && currentMusic == old(currentMusic)
      ensures config.clip.Some? && config.kind == Bgm && old(currentMusic) != Some(Music(config.clip.value, config.loop)) && musicOn == Some(true) ==>
                && currentMusic == Some(Music(config.clip.value, config.loop)) && bgmId == Some(newId)
                && engine == old(engine) + (if old(bgmId).Some? then [StopAudio(old(bgmId).value)] else []) + [PlayMusicCall(config.clip.value, config.loop)]
      ensures config.kind == Bgm && musicOn != Some(true) ==> engine == old(engine) && bgmId == old(bgmId) && currentMusic == old(currentMusic)
      ensures config.kind == Bgm ==> effectIds == old(effectIds)
      ensures config.kind == Effect ==> bgmId == old(bgmId) && currentMusic == old(currentMusic)
      ensures config.kind == Effect && effectOn != Some(true) ==> effectIds == old(effectIds) && engine == old(engine)
      ensures config.clip.Some? && config.kind == Effect && effectOn == Some(true) ==>
                && effectIds == Survivors(AddId(old(effectIds), newId), idle)
                && engine == old(engine) + [PlayEffectCall(config.clip.value, config.loop),
                                            EffectVolumeSet(newId, if config.volume.Some? then config.volume.value else effectVolume)]
    {
      if config.clip.None? {
        return;
      }
      if config.kind == Bgm {
        if currentMusic == Some(Music(config.clip.value, config.loop)) {
          return;
        }
        PlayMusic(config.clip.value, config.loop, newId);
      } else {
        PlayEffect(config.clip, config.loop, config.volume, newId, idle);
      }
    }

    /** pause: the music, or every effect. */
    method Pause(kind: SoundType)
      modifies this`engine
      ensures engine == old(engine) + [if kind == Bgm then PauseMusic else PauseAllEffects]
    {
      if kind == Bgm {
        engine := engine + [PauseMusic];
      } else {
        engine := engine + [PauseAllEffects];
      }
    }

    /** resume: the music, or every effect. */
    method Resume(kind: SoundType)
      modifies this`engine
      ensures engine == old(engine) + [if kind == Bgm then ResumeMusic else ResumeAllEffects]
    {
      if kind == Bgm {
        engine := engine + [ResumeMusic];
      } else {
        engine := engine + [ResumeAllEffects];
      }
    }

    /** setMusicVolume: a volume outside [0, 1] changes nothing; otherwise it is stored, applied and persisted. */
    method SetMusicVolume(volume: Num)
      modifies this`musicVolume, this`engine, this`storage
      ensures OutOfRange(volume) ==> musicVolume == old(musicVolume) && engine == old(engine) && storage == old(storage)
      ensures !OutOfRange(volume) ==>
                && musicVolume == volume && engine == old(engine) + [MusicVolumeSet(volume)]
                && storage == old(storage)[MusicVolumeKey := Numeral(volume)]
    {
      if OutOfRange(volume) {
        return;
      }
      musicVolume := volume;
      engine := engine + [MusicVolumeSet(volume)];
      storage := storage[MusicVolumeKey := Numeral(volume)];
    }

    /** setEffectVolume: a volume outside [0, 1] changes nothing; otherwise it is stored, applied and persisted. */
    method SetEffectVolume(volume: Num)
      modifies this`effectVolume, this`engine, this`storage
      ensures OutOfRange(volume) ==> effectVolume == old(effectVolume) && engine == old(engine) && storage == old(storage)
      ensures !OutOfRange(volume) ==>
                && effectVolume == volume && engine == old(engine) + [EffectsVolumeSet(volume)]
                && storage == old(storage)[EffectVolumeKey := Numeral(volume)]
    {
      if OutOfRange(volume) {
        return;
      }
      effectVolume := volume;
      engine := engine + [EffectsVolumeSet(volume)];
      storage := storage[EffectVolumeKey := Numeral(volume)];
    }

    /**
     * playMusic: with music not switched on nothing happens; otherwise the
     * old music is stopped, the new one played, and its id and clip kept.
     */
    method PlayMusic(clip: nat, loop: bool, newId: nat)
      requires Valid()
      modifies this`bgmId, this`currentMusic, this`engine
      ensures Valid()
      ensures musicOn != Some(true) ==> bgmId == old(bgmId) && currentMusic == old(currentMusic) && engine == old(engine)
      ensures musicOn == Some(true) ==>
                && bgmId == Some(newId) && currentMusic == Some(Music(clip, loop))
                && engine == old(engine) + (if old(bgmId).Some? then [StopAudio(old(bgmId).value)] else []) + [PlayMusicCall(clip, loop)]
    {
      if musicOn != Some(true) {
        return;
      }
      if bgmId.Some? {
        engine := engine + [StopAudio(bgmId.value)];
      }
      engine := engine + [PlayMusicCall(clip, loop)];
      bgmId, currentMusic := Some(newId), Some(Music(clip, loop));
    }

    /** stopMusic: the music playing is stopped and forgotten. */
    method StopMusic()
      requires Valid()
      modifies this`bgmId, this`currentMusic, this`engine
      ensures Valid() && bgmId.None? && currentMusic.None?
      ensures engine == old(engine) + (if old(bgmId).Some? then [StopAudio(old(bgmId).value)] else [])
    {
      if bgmId.Some? {
        engine := engine + [StopAudio(bgmId.value)];
        bgmId := None;
      }
      currentMusic := None;
    }

    /**
     * playEffect: without a clip, or with effects not switched on, nothing
     * happens; otherwise the effect is played, its id joins the set, its
     * volume is the given one or else the effect volume, and idle ids are
     * cleaned up.
     */
    method PlayEffect(clip: Option<nat>, loop: bool, volume: Option<Num>, newId: nat, idle: set<nat>)
      requires Valid()
      modifies this`effectIds, this`engine
      ensures Valid()
      ensures clip.None? || effectOn != Some(true) ==> effectIds == old(effectIds) && engine == old(engine)
      ensures clip.Some? && effectOn == Some(true) ==>
                && effectIds == Survivors(AddId(old(effectIds), newId), idle)
                && engine == old(engine) + [PlayEffectCall(clip.value, loop), EffectVolumeSet(newId, if volume.Some? then volume.value else effectVolume)]
    {
      if clip.None? {
        return;
      }
      if effectOn != Some(true) {
        return;
      }
      engine := engine + [PlayEffectCall(clip.value, loop)];
      effectIds := AddId(effectIds, newId);
      engine := engine + [EffectVolumeSet(newId, if volume.Some? then volume.value else effectVolume)];
      SurvivorsExact(effectIds, idle);
      CleanFinishedEffects(idle);
    }

    /** stopAllEffects: each id is stopped in insertion order, then the set is emptied. */
    method StopAllEffects()
      modifies this`engine, this`effectIds
      ensures engine == old(engine) + StopCalls(old(effectIds)) && effectIds == []
    {
      var i := 0;
      while i < |effectIds|
        invariant 0 <= i <= |effectIds| && effectIds == old(effectIds)
        invariant engine == old(engine) + StopCalls(effectIds[..i])
      {
        assert effectIds[..i + 1][..i] == effectIds[..i];
        engine := engine + [StopEffect(effectIds[i])];
        i := i + 1;
      }
      assert effectIds[..i] == effectIds;
      effectIds := [];
    }

    /** cleanFinishedEffects: every id the engine reports idle is dropped. */
    method CleanFinishedEffects(idle: set<nat>)
      modifies this`effectIds
      ensures effectIds == Survivors(old(effectIds), idle)
    {
      var kept: seq<nat> := [];
      var i := 0;
      while i < |effectIds|
        invariant 0 <= i <= |effectIds| && effectIds == old(effectIds)
        invariant kept == Survivors(effectIds[..i], idle)
      {
        assert effectIds[..i + 1][..i] == effectIds[..i];
        if effectIds[i] !in idle {
          kept := kept + [effectIds[i]];
        }
        i := i + 1;
      }
      assert effectIds[..i] == effectIds;
      effectIds := kept;
    }
  }

  /** Requesting the same background music twice plays it once: the second request is ignored. */
  method ReplaySameMusic(sound: SoundModule, clip: nat, loop: bool, first: nat, second: nat)
    requires sound.Valid() && sound.musicOn == Some(true) && sound.currentMusic != Some(Music(clip, loop))
    modifies sound
    ensures sound.Valid() && sound.bgmId == Some(first) && sound.currentMusic == Some(Music(clip, loop))
    ensures sound.engine == old(sound.engine) + (if old(sound.bgmId).Some? then [StopAudio(old(sound.bgmId).value)] else [])
                                              + [PlayMusicCall(clip, loop)]
  {
    var config := SoundConfig(Some(clip), None, loop, Bgm);
    sound.Play(config, first, {});
    sound.Play(config, second, {});
  }
}
