/**
 * The file package (file/file.go): file handles, modifications, the Action enum and
 * the in-place XOR of two content hashes.
 */
module File {
  import opened Wrappers
  import opened Errors

  /**
   * A file handle: its URI, version and content. Content is the bytes or the error
   * reading them gave (a file that does not exist, say).
   */
  datatype Handle = Handle(uri: string, version: int, content: Result<string, Error>)

  /** An Action is an int; these are its named values. */
  newtype Action = int

  const UnknownAction: Action := 0
  const Open: Action := 1
  const Change: Action := 2
  const Close: Action := 3
  const Save: Action := 4
  const Create: Action := 5
  const Delete: Action := 6

  /**
   * A modification to a file. Version is -1 and Text is nil (None) when they are not
   * supplied; on-disk changes carry neither.
   */
  datatype Modification = Modification(uri: string, action: Action, onDisk: bool, version: int,
                                       text: Option<string>, languageID: string)

  /** Action.String. */
  function ActionString(a: Action): string
  {
    if a == Open then "Open"
    else if a == Change then "Change"
    else if a == Close then "Close"
    else if a == Save then "Save"
    else if a == Create then "Create"
    else if a == Delete then "Delete"
    else "Unknown"
  }

  /** The name a value prints is its own for the six named actions, so no two of those
      share a name; every other value, UnknownAction included, prints "Unknown". */
  lemma ActionNames(a: Action, b: Action)
    ensures ActionString(a) == "Unknown" <==> !(Open <= a <= Delete)
    ensures Open <= a <= Delete && ActionString(a) == ActionString(b) ==> a == b
  {
  }

  /** A Hash holds a SHA-256 sum. */
  const HashSize := 32

  /** The hash that XORing h with h2 byte by byte gives. */
  function Xor(h: seq<bv8>, h2: seq<bv8>): (r: seq<bv8>)
    requires |h| == |h2|
    ensures |r| == |h|
    ensures forall i :: 0 <= i < |h| ==> r[i] == h[i] ^ h2[i]
  {
    if h == [] then [] else [h[0] ^ h2[0]] + Xor(h[1..], h2[1..])
  }

  /** Hash.XORWith: h[i] ^= h2[i] at every index, in place. */
  method XORWith(h: array<bv8>, h2: seq<bv8>)
    requires h.Length == HashSize && |h2| == HashSize
    modifies h
    ensures h[..] == Xor(old(h[..]), h2)
  {
    for i := 0 to h.Length
      invariant h[i..] == old(h[..])[i..]
      invariant forall j :: 0 <= j < i ==> h[j] == old(h[j]) ^ h2[j]
    {
      h[i] := h[i] ^ h2[i];
    }
  }

  /** XORing with the same hash twice gives back the original. */
  lemma XorTwice(h: seq<bv8>, h2: seq<bv8>)
    requires |h| == |h2|
    ensures Xor(Xor(h, h2), h2) == h
  {
    var r := Xor(Xor(h, h2), h2);
    forall i | 0 <= i < |h| ensures r[i] == h[i] {
      assert r[i] == (h[i] ^ h2[i]) ^ h2[i];
    }
  }

  /** The order of two XORs does not matter. */
  lemma XorCommutes(h: seq<bv8>, a: seq<bv8>, b: seq<bv8>)
    requires |h| == |a| == |b|
    ensures Xor(Xor(h, a), b) == Xor(Xor(h, b), a)
  {
    var l := Xor(Xor(h, a), b);
    var r := Xor(Xor(h, b), a);
    forall i | 0 <= i < |h| ensures l[i] == r[i] {
      assert l[i] == (h[i] ^ a[i]) ^ b[i];
      assert r[i] == (h[i] ^ b[i]) ^ a[i];
    }
  }

  /** XOR with the all-zero hash changes nothing. */
  lemma XorZero(h: seq<bv8>, zero: seq<bv8>)
    requires |h| == |zero|
    requires forall i :: 0 <= i < |zero| ==> zero[i] == 0
    ensures Xor(h, zero) == h
  {
    var r := Xor(h, zero);
    forall i | 0 <= i < |h| ensures r[i] == h[i] {
      assert r[i] == h[i] ^ zero[i];
    }
  }
}
