/** The tag dictionary lookups (src/DataFunctions/TagDictionary/dictionary.ts and
 *  its JavaScript twin tagDictionary/dictionary.js): a tag id such as
 *  "X00100010" loses its first character and the rest is looked up among the
 *  standard data elements; a missing entry reads "Unknown". The lookup
 *  catches the TypeError of a missing entry, so it never throws. The table of
 *  standard data elements is a parameter. */
module TagDictionary {
  import opened JsBytes

  /** One entry of the standard data elements: its VR and its name. */
  datatype DictEntry = DictEntry(vr: string, name: string)

  /** The standard data elements, keyed by group and element ("00100010"). */
  type Dictionary = map<string, DictEntry>

  const Unknown: string := "Unknown"

  /** The key a tag id is looked up under: `tag.slice(1)`. */
  function KeyOf(tag: string): (key: string)
    ensures |tag| > 0 ==> key == tag[1..]
    ensures |tag| == 0 ==> key == ""
  {
    SliceFrom(tag, 1)
  }

  /** lookupTagName: the name of the entry, or "Unknown". */
  function LookupTagName(dictionary: Dictionary, tag: string): (name: string)
    ensures |tag| > 0 && tag[1..] in dictionary ==> name == dictionary[tag[1..]].name
    ensures |tag| > 0 && tag[1..] !in dictionary ==> name == Unknown
  {
    var key := KeyOf(tag);
    if key in dictionary then dictionary[key].name else Unknown
  }

  /** lookupTagVR: the VR of the entry, or "Unknown". */
  function LookupTagVR(dictionary: Dictionary, tag: string): (vr: string)
    ensures |tag| > 0 && tag[1..] in dictionary ==> vr == dictionary[tag[1..]].vr
    ensures |tag| > 0 && tag[1..] !in dictionary ==> vr == Unknown
  {
    var key := KeyOf(tag);
    if key in dictionary then dictionary[key].vr else Unknown
  }

  /** lookup of tagDictionary/dictionary.js. */
  function Lookup(dictionary: Dictionary, tag: string): (name: string)
    ensures name == Unknown || exists key | key in dictionary :: dictionary[key].name == name
  {
    var key := KeyOf(tag);
    if key in dictionary then dictionary[key].name else Unknown
  }

  /** The JavaScript lookup and lookupTagName agree on every tag. */
  lemma LookupIsLookupTagName(dictionary: Dictionary, tag: string)
    ensures Lookup(dictionary, tag) == LookupTagName(dictionary, tag)
  {
  }

  /** Any first character works: a key behind one character finds its entry. */
  lemma LookupFindsKey(dictionary: Dictionary, prefix: char, key: string)
    requires key in dictionary
    ensures LookupTagName(dictionary, [prefix] + key) == dictionary[key].name
    ensures LookupTagVR(dictionary, [prefix] + key) == dictionary[key].vr
  {
    assert ([prefix] + key)[1..] == key;
  }

  /** When no entry is named "Unknown", the name is "Unknown" exactly when the
   *  tag's key is missing. */
  lemma UnknownIffMissing(dictionary: Dictionary, tag: string)
    requires forall key | key in dictionary :: dictionary[key].name != Unknown
    ensures LookupTagName(dictionary, tag) == Unknown <==> KeyOf(tag) !in dictionary
  {
  }

  /** A tag written with a comma, as "X0010,0010", finds nothing when no key
   *  holds a comma. */
  lemma CommaTagUnknown(dictionary: Dictionary, tag: string, i: nat)
    requires forall key | key in dictionary :: ',' !in key
    requires 1 <= i < |tag| && tag[i] == ','
    ensures LookupTagName(dictionary, tag) == Unknown
    ensures LookupTagVR(dictionary, tag) == Unknown
  {
    assert tag[1..][i - 1] == ',';
  }
}
