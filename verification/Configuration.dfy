// The configuration document and the laws of its encoding.
module Configuration {
  import opened Common
  import opened Selector
  import opened RuleConfigs
  import opened Compilation

  // The settings that can change at run time are the default state, the
  // default channel and the rules; `settings` holds every other setting by
  // its path, apart from the two that the model computes with.
  datatype Config = Config(
    seed: string,
    registryCapacity: int,
    settings: map<string, string>,
    defaultState: FlowState,
    defaultChannel: nat,
    rules: seq<RuleConfig>)

  function PolicyOf(c: Config): (p: Policy) {
    Policy(c.seed, c.defaultState, c.defaultChannel, c.rules)
  }

  // The two configurations agree on everything that needs a restart.
  predicate SameFrozen(a: Config, b: Config) {
    a.seed == b.seed && a.registryCapacity == b.registryCapacity && a.settings == b.settings
  }

  type Bytes = seq<bv8>

  type Revision = string

  const MAXIMUM_BYTES: nat := 1048576

  // Decoding, canonical encoding, digest, and the validity of the settings
  // that the model does not look into.
  datatype Codec = Codec(
    decode: Bytes -> Option<Config>,
    encode: Config -> Option<Bytes>,
    digest: Bytes -> Revision,
    soundSettings: map<string, string> -> bool)

  // Canonical encodings decode to what was encoded; the digest identifies the
  // bytes and is never empty.
  ghost predicate Lawful(k: Codec) {
    && (forall c :: k.encode(c).Some? ==> k.decode(k.encode(c).value) == Some(c))
    && (forall a, b :: k.digest(a) == k.digest(b) ==> a == b)
    && (forall a :: k.digest(a) != "")
  }

  ghost predicate ValidConfig(k: Codec, c: Config) {
    ValidPolicy(PolicyOf(c)) && c.registryCapacity > 0 && k.soundSettings(c.settings)
  }

  lemma SameRevision(k: Codec, a: Bytes, b: Bytes)
    requires Lawful(k) && k.digest(a) == k.digest(b)
    ensures a == b
  {
  }

  lemma EncodingsDiffer(k: Codec, a: Config, b: Config)
    requires Lawful(k) && k.encode(a).Some? && k.encode(a) == k.encode(b)
    ensures a == b
  {
    assert k.decode(k.encode(a).value) == Some(a);
  }

  // ---------------------------------------------------- the laws can be met

  function Plain(channel: nat): (c: Config) {
    Config("seed", 1, map[], Monitor, channel, [])
  }

  function Spell(b: Bytes): (text: string)
    ensures |text| == |b| + 1 && forall i | 0 <= i < |b| :: text[i + 1] == b[i] as int as char
  {
    ['r'] + seq(|b|, i requires 0 <= i < |b| => b[i] as int as char)
  }

  // A configuration that differs from Plain(1) in a setting that needs a
  // restart.
  const RESEEDED: Config := Plain(1).(seed := "other")

  // A codec for three configurations.
  function SmallCodec(): (k: Codec) {
    Codec(
      (b: Bytes) => if b == [1] then Some(Plain(1)) else if b == [2] then Some(Plain(2))
                    else if b == [3] then Some(RESEEDED) else None,
      (c: Config) => if c == Plain(1) then Some([1]) else if c == Plain(2) then Some([2])
                     else if c == RESEEDED then Some([3]) else None,
      (b: Bytes) => Spell(b),
      (settings: map<string, string>) => true)
  }

  lemma SmallCodecIsLawful()
    ensures Lawful(SmallCodec())
  {
    forall a: Bytes, b: Bytes | Spell(a) == Spell(b)
      ensures a == b
    {
      forall i | 0 <= i < |a| ensures a[i] == b[i] {
        assert Spell(a)[i + 1] == Spell(b)[i + 1];
      }
    }
  }
}
