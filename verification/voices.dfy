/** The voice registry: a fixed table keyed by short lower-case names, looked up case-insensitively. */
module Voices {
  import opened Base
  import opened Text
  import opened Types

  /** One own property of the `voices` object, in insertion order. */
  datatype VoiceEntry = VoiceEntry(key: string, voice: Voice)

  type VoiceTable = seq<VoiceEntry>

  /** Keys are distinct and lower-case, as in both registries of the source. */
  predicate WellFormed(table: VoiceTable)
  {
    && (forall i, j :: 0 <= i < j < |table| ==> table[i].key != table[j].key)
    && (forall i :: 0 <= i < |table| ==> IsLowerCase(table[i].key))
  }

  /** Own-property lookup `voices[key]`, exact match on the key. */
  function Lookup(table: VoiceTable, key: string): (r: Option<Voice>)
    ensures r.None? <==> forall i :: 0 <= i < |table| ==> table[i].key != key
    ensures r.Some? ==> exists i :: 0 <= i < |table| && table[i].key == key && table[i].voice == r.value
  {
    if table == [] then None
    else if table[0].key == key then Some(table[0].voice)
    else Lookup(table[1..], key)
  }

  /** In a well-formed table, the lookup of an entry's key yields that entry's voice. */
  lemma LookupEntry(table: VoiceTable, i: nat)
    requires WellFormed(table) && i < |table|
    ensures Lookup(table, table[i].key) == Some(table[i].voice)
  {
    var r := Lookup(table, table[i].key);
    var j :| 0 <= j < |table| && table[j].key == table[i].key && table[j].voice == r.value;
    assert j == i;
  }

  /** `voices[name.toLowerCase()]`. */
  function FindVoice(table: VoiceTable, name: string): Option<Voice>
  {
    Lookup(table, Lower(name))
  }

  /** `isValidVoice`, with the lookup restricted to the table's own keys. */
  predicate IsValidVoice(table: VoiceTable, name: string)
  {
    FindVoice(table, name).Some?
  }

  /** `getAvailableVoices`: one `{id, name, gender}` per entry, in table order, where `id` is the key. */
  function AvailableVoices(table: VoiceTable): (r: seq<VoiceInfo>)
    ensures |r| == |table|
    ensures forall i :: 0 <= i < |table| ==>
      r[i] == VoiceInfo(table[i].key, table[i].voice.name, table[i].voice.gender)
  {
    if table == [] then []
    else [VoiceInfo(table[0].key, table[0].voice.name, table[0].voice.gender)] + AvailableVoices(table[1..])
  }

  /** `getVoiceId`: the provider id of the voice named case-insensitively, or null. */
  function GetVoiceId(table: VoiceTable, name: string): (r: Option<string>)
    ensures r.Some? <==> IsValidVoice(table, name)
    ensures r.Some? ==> exists i :: 0 <= i < |table| && table[i].key == Lower(name) && table[i].voice.id == r.value
  {
    match FindVoice(table, name)
    case None => None
    case Some(v) => Some(v.id)
  }

  /** A name is valid exactly when its lower-case form is an `id` of the listing. */
  lemma ValidIffListed(table: VoiceTable, name: string)
    ensures IsValidVoice(table, name) <==>
      exists i :: 0 <= i < |AvailableVoices(table)| && AvailableVoices(table)[i].id == Lower(name)
  {
    var list := AvailableVoices(table);
    if IsValidVoice(table, name) {
      var i :| 0 <= i < |table| && table[i].key == Lower(name);
      assert list[i].id == Lower(name);
    }
  }

  /** Every listed id is itself a valid voice name, and resolves to the entry it was listed from. */
  lemma ListedAreValid(table: VoiceTable, i: nat)
    requires WellFormed(table) && i < |AvailableVoices(table)|
    ensures IsValidVoice(table, AvailableVoices(table)[i].id)
    ensures FindVoice(table, AvailableVoices(table)[i].id) == Some(table[i].voice)
  {
    LowerFacts(table[i].key);
    LookupEntry(table, i);
  }

  /** Names that differ only in ASCII case resolve to the same voice. */
  lemma CaseInsensitive(table: VoiceTable, a: string, b: string)
    requires Lower(a) == Lower(b)
    ensures FindVoice(table, a) == FindVoice(table, b)
    ensures IsValidVoice(table, a) == IsValidVoice(table, b)
  {
  }

  /** `isValidVoice` agrees with `getVoiceId` returning a non-null id. */
  lemma ValidIffVoiceId(table: VoiceTable, name: string)
    ensures IsValidVoice(table, name) <==> GetVoiceId(table, name).Some?
  {
  }

  // ---------------------------------------------------------------------------
  // As written, `voices[k]` is a property read on a plain object, so it also sees
  // the properties every object inherits. The only inherited names that are
  // entirely lower case (and so can be produced by `toLowerCase`) are these two.

  /** Lower-case property names every plain JavaScript object inherits. */
  const InheritedNames: set<string> := {"constructor", "__proto__"}

  /** `isValidVoice` as written: true also for inherited property names. */
  predicate IsValidVoiceAsWritten(table: VoiceTable, name: string)
  {
    FindVoice(table, name).Some? || Lower(name) in InheritedNames
  }

  /** The registry of the cache-backed deployment (memo-service.ts). */
  function DenoVoices(): VoiceTable
  {
    [ VoiceEntry("june", Voice("21m00Tcm4TlvDq8ikWAM", "June", Female, Some("en-US-JennyNeural"), Some("21m00Tcm4TlvDq8ikWAM"))),
      VoiceEntry("april", Voice("AZnzlk1XvdvUeBnXmlld", "April", Female, Some("en-US-EmmaNeural"), Some("AZnzlk1XvdvUeBnXmlld"))),
      VoiceEntry("sally", Voice("EXAVITQu4vr4xnSDxMaL", "Sally", Female, Some("en-US-AriaNeural"), Some("EXAVITQu4vr4xnSDxMaL"))),
      VoiceEntry("fred", Voice("TxGEqnHWrfWFTfGW9XjX", "Fred", Male, Some("en-US-GuyNeural"), Some("TxGEqnHWrfWFTfGW9XjX"))),
      VoiceEntry("bill", Voice("flq6f7yk4E4fJM5XTYuZ", "Bill", Male, Some("en-US-EricNeural"), Some("flq6f7yk4E4fJM5XTYuZ"))),
      VoiceEntry("charlie", Voice("IKne3meq5aSn9XLyUdCD", "Charlie", Male, Some("en-US-TonyNeural"), Some("IKne3meq5aSn9XLyUdCD"))),
      VoiceEntry("dora", Voice("pNInz6obpgDQGcFmaJgB", "Dora", Female, Some("en-US-AnaNeural"), Some("pNInz6obpgDQGcFmaJgB"))),
      VoiceEntry("marcus", Voice("wVAW6Ij4fQ3QmWYc4JyO", "Marcus", Male, Some("en-US-BrianNeural"), Some("wVAW6Ij4fQ3QmWYc4JyO"))),
      VoiceEntry("bella", Voice("XB0fDKeXKc1Xb2dQw7Jc", "Bella", Female, Some("en-US-MichelleNeural"), Some("XB0fDKeXKc1Xb2dQw7Jc"))) ]
  }

  /** The registry of the directory-backed deployment (lib/memo-service.mjs): no per-provider ids. */
  function NodeVoices(): VoiceTable
  {
    [ VoiceEntry("june", Voice("21m00Tcm4TlvDq8ikWAM", "June", Female, None, None)),
      VoiceEntry("april", Voice("AZnzlk1XvdvUeBnXmlld", "April", Female, None, None)),
      VoiceEntry("sally", Voice("EXAVITQu4vr4xnSDxMaL", "Sally", Female, None, None)),
      VoiceEntry("fred", Voice("TxGEqnHWrfWFTfGW9XjX", "Fred", Male, None, None)),
      VoiceEntry("bill", Voice("flq6f7yk4E4fJM5XTYuZ", "Bill", Male, None, None)),
      VoiceEntry("charlie", Voice("IKne3meq5aSn9XLyUdCD", "Charlie", Male, None, None)),
      VoiceEntry("dora", Voice("pNInz6obpgDQGcFmaJgB", "Dora", Female, None, None)),
      VoiceEntry("marcus", Voice("wVAW6Ij4fQ3QmWYc4JyO", "Marcus", Male, None, None)),
      VoiceEntry("bella", Voice("XB0fDKeXKc1Xb2dQw7Jc", "Bella", Female, None, None)) ]
  }

  /** Every key of a table is shorter than `n` characters. */
  predicate KeysShorterThan(table: VoiceTable, n: nat)
  {
    forall i :: 0 <= i < |table| ==> |table[i].key| < n
  }

  /** The keys both registries list, in table order. */
  const RegistryKeys: seq<string> := ["june", "april", "sally", "fred", "bill", "charlie", "dora", "marcus", "bella"]

  /** The registry keys are pairwise distinct, lower-case and shorter than 8 characters: no two
      keys agree on both their length and their first letter. */
  lemma RegistryKeysFacts()
    ensures forall i, j :: 0 <= i < j < |RegistryKeys| ==> RegistryKeys[i] != RegistryKeys[j]
    ensures forall i :: 0 <= i < |RegistryKeys| ==> IsLowerCase(RegistryKeys[i]) && |RegistryKeys[i]| < 8
  {
    var k := RegistryKeys;
    var lens := [4, 5, 5, 4, 4, 7, 4, 6, 5];
    var firsts := "jasfbcdmb";
    forall i | 0 <= i < |k|
      ensures |k[i]| == lens[i] && |k[i]| > 0 && k[i][0] == firsts[i]
      ensures IsLowerCase(k[i]) && |k[i]| < 8
    {
    }
    forall i, j | 0 <= i < j < |k|
      ensures k[i] != k[j]
    {
      assert lens[i] != lens[j] || firsts[i] != firsts[j];
    }
  }

  /** A table listing exactly the registry keys is well formed with keys shorter than 8. */
  lemma RegistryTableFacts(t: VoiceTable)
    requires |t| == |RegistryKeys|
    requires forall i :: 0 <= i < |t| ==> t[i].key == RegistryKeys[i]
    ensures WellFormed(t) && KeysShorterThan(t, 8)
  {
    RegistryKeysFacts();
  }

  lemma DenoVoicesFacts()
    ensures WellFormed(DenoVoices())
    ensures KeysShorterThan(DenoVoices(), 8)
    ensures forall i :: 0 <= i < |DenoVoices()| ==> Truthy(DenoVoices()[i].voice.edgeVoice)
  {
    var t := DenoVoices();
    assert forall i :: 0 <= i < |t| ==> t[i].key == RegistryKeys[i];
    RegistryTableFacts(t);
  }

  lemma NodeVoicesFacts()
    ensures WellFormed(NodeVoices())
    ensures KeysShorterThan(NodeVoices(), 8)
    ensures forall i :: 0 <= i < |NodeVoices()| ==> |NodeVoices()[i].voice.id| == 20
  {
    var t := NodeVoices();
    assert forall i :: 0 <= i < |t| ==> t[i].key == RegistryKeys[i];
    RegistryTableFacts(t);
  }

  /** A name longer than every key finds nothing. */
  lemma LookupTooLong(table: VoiceTable, key: string, n: nat)
    requires KeysShorterThan(table, n) && |key| >= n
    ensures Lookup(table, key) == None
  {
  }

  /** The inherited name "constructor" (in any case) passes the as-written check although it is
      not a listed voice. */
  lemma ConstructorAcceptedAsWritten(name: string)
    requires Lower(name) == "constructor"
    ensures IsValidVoiceAsWritten(DenoVoices(), name)
    ensures !IsValidVoice(DenoVoices(), name)
    ensures forall i :: 0 <= i < |AvailableVoices(DenoVoices())| ==> AvailableVoices(DenoVoices())[i].id != Lower(name)
  {
    DenoVoicesFacts();
    LookupTooLong(DenoVoices(), Lower(name), 8);
    ValidIffListed(DenoVoices(), name);
  }
}
