/**
  * The document side of the hexite editor: the `baseAddress` a URI query
  * may carry (`?baseAddress=0x1000`), and `readBuffer`, which reads a byte
  * range of the file through its accessor.
  */
module HexDocument {
  import opened Prelude
  import opened JsBuiltins
  import opened FileSystemAdaptor

  // ---------------------------------------------------------------------
  // parseQuery

  /** The pairs of a query string: one leading `?` dropped, split on `&`. */
  function Pairs(queryString: string): (pairs: seq<string>)
    ensures queryString == [] ==> pairs == []
  {
    if queryString == [] then []
    else Split(if queryString[0] == '?' then queryString[1..] else queryString, '&')
  }

  /** The name of a pair: the text before its first `=` (`pair.shift()`). */
  function Name(q: string): (name: string)
    ensures '=' !in name
  {
    Split(q, '=')[0]
  }

  /** The value of a pair: the remaining pieces joined with `=` again. */
  function Value(q: string): string
  {
    Join(Split(q, '=')[1..], '=')
  }

  /**
    * A name that becomes a key: a non-empty name (an empty one is falsy).
    * Assigning a string to `__proto__` on a plain object is ignored, so that
    * name never becomes a key either.
    */
  predicate Keyable(name: string)
  {
    name != "" && name != "__proto__"
  }

  /** The dictionary `parseQuery` builds from `pairs`, later pairs overwriting earlier ones. */
  function QueryMap(pairs: seq<string>): (m: map<string, string>)
    ensures forall k :: k in m ==> Keyable(k)
  {
    if pairs == [] then map[]
    else
      var m := QueryMap(pairs[..|pairs| - 1]);
      var q := pairs[|pairs| - 1];
      if Keyable(Name(q)) then m[Name(q) := Value(q)] else m
  }

  /**
    * A pair splits at its first `=`: the name holds no `=` and the value may.
    * A pair without `=` is all name, with the empty value.
    */
  lemma NameValue(q: string)
    ensures '=' !in Name(q)
    ensures '=' in q ==> q == Name(q) + "=" + Value(q)
    ensures '=' !in q ==> Name(q) == q && Value(q) == ""
  {
    var i := IndexOf(q, '=');
    SplitFirst(q, '=');
    if '=' in q {
      var k :| 0 <= k < |q| && q[k] == '=';
      assert i <= k;
      assert q == q[..i] + "=" + q[i + 1..];
    } else {
      assert i == |q|;
    }
  }

  /** `k` is a key of the dictionary exactly when some pair is named `k` and `k` is keyable. */
  lemma {:induction false} QueryMapKeys(pairs: seq<string>, k: string)
    ensures k in QueryMap(pairs) <==> Keyable(k) && exists i :: 0 <= i < |pairs| && Name(pairs[i]) == k
    decreases |pairs|
  {
    if pairs != [] {
      var n := |pairs| - 1;
      var init, q := pairs[..n], pairs[n];
      QueryMapKeys(init, k);
      assert QueryMap(pairs) == if Keyable(Name(q)) then QueryMap(init)[Name(q) := Value(q)] else QueryMap(init);
      if k in QueryMap(pairs) && !(Keyable(Name(q)) && Name(q) == k) {
        var i :| 0 <= i < n && Name(init[i]) == k;
        assert pairs[i] == init[i];
      }
      if Keyable(k) && exists i :: 0 <= i < |pairs| && Name(pairs[i]) == k {
        var i :| 0 <= i < |pairs| && Name(pairs[i]) == k;
        if i < n {
          assert init[i] == pairs[i];
        }
      }
    }
  }

  /** The value of a key is that of the last pair with that name. */
  lemma {:induction false} QueryMapLast(pairs: seq<string>, k: string, i: nat)
    requires i < |pairs| && Name(pairs[i]) == k && Keyable(k)
    requires forall j :: i < j < |pairs| ==> Name(pairs[j]) != k
    ensures k in QueryMap(pairs) && QueryMap(pairs)[k] == Value(pairs[i])
    decreases |pairs|
  {
    var n := |pairs| - 1;
    var init, q := pairs[..n], pairs[n];
    assert QueryMap(pairs) == if Keyable(Name(q)) then QueryMap(init)[Name(q) := Value(q)] else QueryMap(init);
    if i < n {
      assert init[i] == pairs[i];
      assert forall j :: i < j < n ==> init[j] == pairs[j];
      QueryMapLast(init, k, i);
    }
  }

  /** For repeated names the later pair wins. */
  lemma LaterPairWins(pairs: seq<string>, q: string)
    requires Keyable(Name(q))
    ensures QueryMap(pairs + [q])[Name(q)] == Value(q)
  {
    assert (pairs + [q])[..|pairs|] == pairs;
  }

  /**
    * `parseQuery`: a dictionary from the query string's pairs; `""` and `"?"`
    * give the empty dictionary.
    */
  method ParseQuery(queryString: string) returns (queries: map<string, string>)
    ensures queries == QueryMap(Pairs(queryString))
  {
    queries := map[];
    if queryString != [] {
      var pairs := Split(if queryString[0] == '?' then queryString[1..] else queryString, '&');
      for i := 0 to |pairs|
        invariant queries == QueryMap(pairs[..i])
      {
        var pair := Split(pairs[i], '=');
        var name := pair[0];
        if name != "" && name != "__proto__" {
          queries := queries[name := Join(pair[1..], '=')];
        }
        assert pairs[..i + 1][..i] == pairs[..i];
      }
      assert pairs[..|pairs|] == pairs;
    }
  }

  /** Exactly one `?` is dropped: after it, the pairs are the text split on `&`. */
  lemma OneQuestionMark(rest: string)
    ensures Pairs("?" + rest) == Split(rest, '&')
    ensures rest == [] || rest[0] != '?' ==> QueryMap(Pairs("?" + rest)) == QueryMap(Pairs(rest))
  {
    assert ("?" + rest)[1..] == rest;
    if rest == [] {
      NoSeparator(rest, '&');
      NoSeparator(rest, '=');
      assert Split(rest, '&') == [""];
      assert QueryMap([""]) == QueryMap([]);
    }
  }

  /**
    * A query of one pair whose name holds neither `&` nor `=` and whose value
    * holds no `&` gives exactly that name and value.
    */
  lemma OnePair(name: string, value: string)
    requires Keyable(name) && '&' !in name && '=' !in name && '&' !in value
    ensures QueryMap(Pairs("?" + name + "=" + value)) == map[name := value]
  {
    var q := name + "=" + value;
    assert "?" + name + "=" + value == "?" + q;
    OneQuestionMark(q);
    assert '&' !in q by {
      forall k | 0 <= k < |q| ensures q[k] != '&' {
        if k < |name| { assert q[k] == name[k]; }
        else if k > |name| { assert q[k] == value[k - |name| - 1]; }
      }
    }
    NoSeparator(q, '&');
    FirstSeparator(name, '=', value);
    SplitFirst(q, '=');
    assert q[..|name|] == name && q[|name| + 1..] == value;
    assert Name(q) == name && Value(q) == value;
    assert [q][..0] == [];
  }

  // ---------------------------------------------------------------------
  // parseHexOrDecInt and baseAddress

  /** `parseHexOrDecInt`: lower-cased; base 16 after a `0x` prefix, base 10 otherwise. */
  function ParseHexOrDecInt(str: string): Number
  {
    var s := ToLowerCase(str);
    if |s| >= 2 && s[..2] == "0x" then ParseInt(s[2..], 16) else ParseInt(s, 10)
  }

  /** Lower-casing leaves a string without upper-case ASCII letters alone. */
  lemma LowerCaseKeeps(s: string)
    requires forall k :: 0 <= k < |s| ==> !('A' <= s[k] <= 'Z')
    ensures ToLowerCase(s) == s
  {
  }

  /** `"0x"` followed by the hexadecimal digits of `n` parses as `n`. */
  lemma ParseHex(n: nat)
    ensures ParseHexOrDecInt("0x" + Format(n, 16)) == Int(n)
  {
    var digits := Format(n, 16);
    var s := "0x" + digits;
    assert forall k :: 2 <= k < |s| ==> s[k] == digits[k - 2];
    LowerCaseKeeps(s);
    assert s[..2] == "0x" && s[2..] == digits;
    ParseIntFormat(n, 16);
  }

  /** The decimal digits of `n` parse as `n`. */
  lemma ParseDec(n: nat)
    ensures ParseHexOrDecInt(Format(n, 10)) == Int(n)
  {
    var s := Format(n, 10);
    LowerCaseKeeps(s);
    if |s| >= 2 {
      assert IsDigit(s[1], 10) && s[..2][1] == s[1];
    }
    ParseIntFormat(n, 10);
  }

  /** The prefix is case-insensitive: `0X` reads like `0x`. */
  lemma UpperPrefix(rest: string)
    ensures ParseHexOrDecInt("0X" + rest) == ParseHexOrDecInt("0x" + rest)
  {
    assert ToLowerCase("0X" + rest) == ToLowerCase("0x" + rest);
  }

  /** The query key `create` looks up. */
  const BaseAddressKey: string := "baseAddress"

  lemma BaseAddressKeyIsPlain()
    ensures Keyable(BaseAddressKey) && '&' !in BaseAddressKey && '=' !in BaseAddressKey
  {
    forall k | 0 <= k < |BaseAddressKey| ensures BaseAddressKey[k] != '&' && BaseAddressKey[k] != '=' {
    }
  }

  /** The `baseAddress` `create` chooses from the parsed query. */
  function BaseAddress(queries: map<string, string>): Number
  {
    if BaseAddressKey in queries && queries[BaseAddressKey] != "" then ParseHexOrDecInt(queries[BaseAddressKey]) else Int(0)
  }

  /** With no pair named `baseAddress`, the base address is 0. */
  lemma BaseAddressDefault(queryString: string)
    requires forall i :: 0 <= i < |Pairs(queryString)| ==> Name(Pairs(queryString)[i]) != BaseAddressKey
    ensures BaseAddress(QueryMap(Pairs(queryString))) == Int(0)
  {
    QueryMapKeys(Pairs(queryString), BaseAddressKey);
  }

  /** `?baseAddress=` followed by a value without `&` gives that value, parsed; 0 when it is empty. */
  lemma BaseAddressOf(value: string)
    requires '&' !in value
    ensures BaseAddress(QueryMap(Pairs("?" + BaseAddressKey + "=" + value)))
            == if value == "" then Int(0) else ParseHexOrDecInt(value)
  {
    BaseAddressKeyIsPlain();
    OnePair(BaseAddressKey, value);
  }

  /** `?baseAddress=0x…` gives the number the hexadecimal digits spell. */
  lemma BaseAddressHex(n: nat)
    ensures BaseAddress(QueryMap(Pairs("?" + BaseAddressKey + "=" + "0x" + Format(n, 16)))) == Int(n)
  {
    var digits := Format(n, 16);
    var value := "0x" + digits;
    assert forall k :: 2 <= k < |value| ==> value[k] == digits[k - 2];
    assert '&' !in value;
    BaseAddressOf(value);
    assert "?" + BaseAddressKey + "=" + "0x" + digits == "?" + BaseAddressKey + "=" + value;
    ParseHex(n);
  }

  // ---------------------------------------------------------------------
  // readBuffer

  /** `read === length ? target : target.slice(0, read)`, as the source writes it. */
  function KeepReadAsWritten(target: seq<byte>, read: int): (r: seq<byte>)
    ensures 0 <= read <= |target| ==> r == target[..read]
    ensures read < 0 ==> |r| == Max(|target| + read, 0) && r == target[..|r|]
  {
    if read == |target| then target else Slice(target, 0, read)
  }

  /** The same with a negative count read as "nothing read". */
  function KeepRead(target: seq<byte>, read: int): (r: seq<byte>)
    ensures r == target[..Max(Min(read, |target|), 0)]
  {
    if read == |target| then target else Slice(target, 0, Max(read, 0))
  }

  /** The two agree on every count a read can honestly report. */
  lemma KeepReadAgrees(target: seq<byte>, read: int)
    requires 0 <= read
    ensures KeepReadAsWritten(target, read) == KeepRead(target, read)
  {
  }

  /** How a `readBuffer` promise settles: with the bytes read, or with the accessor's error. */
  datatype BufferOutcome = Buffer(bytes: seq<byte>) | BufferFailed(code: nat)

  class HexDocument {
    const accessor: SimpleFileAccessor
    /** The base address; `NaN` when the query's value does not parse. */
    const baseAddress: Number

    constructor (accessor: SimpleFileAccessor, baseAddress: Number)
      ensures this.accessor == accessor && this.baseAddress == baseAddress
    {
      this.accessor := accessor;
      this.baseAddress := baseAddress;
    }

    /** The `baseAddress` part of `create`. */
    static method Create(accessor: SimpleFileAccessor, uriQuery: string) returns (doc: HexDocument)
      ensures fresh(doc) && doc.accessor == accessor
      ensures doc.baseAddress == BaseAddress(QueryMap(Pairs(uriQuery)))
    {
      var queries := ParseQuery(uriQuery);
      doc := new HexDocument(accessor, BaseAddress(queries));
    }

    /**
      * `readBuffer` as written: it fails when the accessor's fetch failed.
      * Otherwise, within the file it returns the bytes of
      * `[offset, offset + length)` that exist; past the end of the file it
      * returns `length - (offset - |file|)` zero bytes (or none).
      */
    method ReadBufferAsWritten(offset: nat, length: nat, fetched: Fetch) returns (r: BufferOutcome)
      modifies accessor
      ensures accessor.contents == Some(if old(accessor.contents).Some? then old(accessor.contents).value else fetched)
      ensures accessor.contents.value.FetchFailed? ==> r == BufferFailed(accessor.contents.value.code)
      ensures accessor.contents.value.Fetched? ==>
        var c := accessor.contents.value.bytes;
        && r.Buffer?
        && (offset <= |c| ==> r.bytes == c[offset..Min(offset + length, |c|)])
        && (offset > |c| ==> |r.bytes| == Max(length - (offset - |c|), 0) && forall k :: 0 <= k < |r.bytes| ==> r.bytes[k] == 0)
    {
      var target := new byte[length](_ => 0);
      var read := accessor.Read(offset, target, fetched);
      match read
      case ReadFailed(code) => r := BufferFailed(code);
      case Copied(count) => r := Buffer(KeepReadAsWritten(target[..], count));
    }

    /**
      * `readBuffer` with the count clamped at 0: the bytes of
      * `[offset, offset + length)` that the file has, and nothing else.
      */
    method ReadBuffer(offset: nat, length: nat, fetched: Fetch) returns (r: BufferOutcome)
      modifies accessor
      ensures accessor.contents == Some(if old(accessor.contents).Some? then old(accessor.contents).value else fetched)
      ensures accessor.contents.value.FetchFailed? ==> r == BufferFailed(accessor.contents.value.code)
      ensures accessor.contents.value.Fetched? ==>
        var c := accessor.contents.value.bytes;
        r == Buffer(c[Min(offset, |c|)..Min(offset + length, |c|)])
    {
      var target := new byte[length](_ => 0);
      var read := accessor.Read(offset, target, fetched);
      match read
      case ReadFailed(code) => r := BufferFailed(code);
      case Copied(count) => r := Buffer(KeepRead(target[..], count));
    }
  }

  /**
    * A read of 4 bytes from a 2-byte file gives the 2 bytes; a read of 10
    * bytes at offset 6 of a 4-byte file gives 8 zero bytes as written and
    * nothing once the count is clamped.
    */
  method ShortAndPastEndReads() returns (short: BufferOutcome, pastEndAsWritten: BufferOutcome, pastEnd: BufferOutcome)
    ensures short == Buffer([7, 9])
    ensures pastEndAsWritten.Buffer? && |pastEndAsWritten.bytes| == 8 && pastEnd == Buffer([])
  {
    var small := new SimpleFileAccessor("file:///small");
    var doc := new HexDocument(small, Int(0));
    short := doc.ReadBuffer(0, 4, Fetched([7, 9]));
    var four := new SimpleFileAccessor("file:///four");
    var doc1 := new HexDocument(four, Int(0));
    pastEndAsWritten := doc1.ReadBufferAsWritten(6, 10, Fetched([1, 2, 3, 4]));
    var doc2 := new HexDocument(four, Int(0));
    pastEnd := doc2.ReadBuffer(6, 10, Fetched([5, 6, 7, 8]));
  }
}
