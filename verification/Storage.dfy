/** Public URLs of stored objects, and the way back from a URL to the object's key. */
module Storage {

  /** A key that does not itself look like a public URL; `prefix` is `${publicUrl}/${bucket}/`. */
  predicate Bare(prefix: string, key: string) {
    !(prefix <= key)
  }

  /** `key` wrapped in `n` public URLs. */
  function Wrapped(prefix: string, n: nat, key: string): string {
    if n == 0 then key else prefix + Wrapped(prefix, n - 1, key)
  }

  function KeyOf(prefix: string, value: string): (key: string)
    requires prefix != ""
    ensures Bare(prefix, key)
    decreases |value|
  {
    if prefix <= value then KeyOf(prefix, value[|prefix|..]) else value
  }

  method ExtractKey(prefix: string, value: string) returns (key: string)
    requires prefix != ""
    ensures key == KeyOf(prefix, value)
  {
    key := value;
    while prefix <= key
      invariant KeyOf(prefix, key) == KeyOf(prefix, value)
      decreases |key|
    {
      key := key[|prefix|..];
    }
  }

  /** The key is the one bare text that yields the value when wrapped some number of times. */
  lemma {:induction false} KeyIsUnwrapped(prefix: string, value: string) returns (n: nat)
    requires prefix != ""
    ensures value == Wrapped(prefix, n, KeyOf(prefix, value))
    decreases |value|
  {
    if prefix <= value {
      var m := KeyIsUnwrapped(prefix, value[|prefix|..]);
      n := m + 1;
    } else {
      n := 0;
    }
  }

  /** Extracting undoes any number of URL wrappings of a bare key. */
  lemma {:induction false} KeyOfWrapped(prefix: string, n: nat, key: string)
    requires prefix != "" && Bare(prefix, key)
    ensures KeyOf(prefix, Wrapped(prefix, n, key)) == key
  {
    if n > 0 {
      var inner := Wrapped(prefix, n - 1, key);
      assert (prefix + inner)[|prefix|..] == inner;
      KeyOfWrapped(prefix, n - 1, key);
    }
  }
}
