/** The city table of config.py: eleven Turkish cities, each under a
    lower-case ASCII key, with coordinates and a display name. */
module Config {

  datatype City = City(lat: real, lon: real, name: string)

  /** One `key: {...}` item of the dictionary, in insertion order. */
  datatype Entry = Entry(key: string, city: City)

  const TURKISH_CITIES: seq<Entry> := [
    Entry("istanbul", City(41.0082, 28.9784, "İstanbul")),
    Entry("ankara", City(39.9334, 32.8597, "Ankara")),
    Entry("izmir", City(38.4237, 27.1428, "İzmir")),
    Entry("antalya", City(36.8841, 30.7056, "Antalya")),
    Entry("bursa", City(40.1885, 29.0610, "Bursa")),
    Entry("adana", City(37.0000, 35.3213, "Adana")),
    Entry("konya", City(37.8667, 32.4833, "Konya")),
    Entry("gaziantep", City(37.0662, 37.3833, "Gaziantep")),
    Entry("mersin", City(36.8000, 34.6333, "Mersin")),
    Entry("diyarbakir", City(37.9144, 40.2306, "Diyarbakır")),
    Entry("kayseri", City(38.7312, 35.4787, "Kayseri"))
  ]

  /** The keys of the table, in insertion order: `k in TURKISH_CITIES`
      holds exactly for the keys some entry carries. */
  function Keys(entries: seq<Entry>): (r: seq<string>)
    ensures |r| == |entries|
    ensures forall i | 0 <= i < |entries| :: r[i] == entries[i].key
    ensures forall k :: k in r <==> exists i | 0 <= i < |entries| :: entries[i].key == k
  {
    seq(|entries|, i requires 0 <= i < |entries| => entries[i].key)
  }

  /** A dictionary has each key once. */
  predicate DistinctKeys(entries: seq<Entry>) {
    forall i, j | 0 <= i < j < |entries| :: entries[i].key != entries[j].key
  }

  /** The table has each key once: no two keys share both their first
      letter and their length. */
  lemma TableKeysDistinct()
    ensures DistinctKeys(TURKISH_CITIES)
  {
    var t := TURKISH_CITIES;
    forall i, j | 0 <= i < j < |t|
      ensures t[i].key != t[j].key
    {
      KeySignature(i);
      KeySignature(j);
    }
  }

  function Signature(k: string): (char, int) {
    if k == [] then (' ', 0) else (k[0], |k|)
  }

  const SIGNATURES: seq<(char, int)> := [('i', 8), ('a', 6), ('i', 5), ('a', 7), ('b', 5), ('a', 5), ('k', 5), ('g', 9), ('m', 6), ('d', 10), ('k', 7)]

  /** The first letter and the length of the key of entry i. */
  lemma KeySignature(i: nat)
    requires i < |TURKISH_CITIES|
    ensures Signature(TURKISH_CITIES[i].key) == SIGNATURES[i]
  {
  }
}
