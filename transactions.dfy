/**
 * `ShardTransaction` and the parsing of its `data` field
 * (`getDataDecoded`, `getDataFunctionName`, `getDataArgs`).
 *
 * The source caches the three derived values in private fields; the cache is
 * deterministic (a value is recomputed from the same `data` when the cached
 * one is falsy), so each derived value is a function of the transaction here.
 */
module Transactions {
  import opened Wrappers
  import Base64

  datatype ShardTransaction = ShardTransaction(
    value: string,
    data: Option<string>,
    hash: string,
    sender: string,
    receiver: string,
    status: string,
    sourceShard: int,
    destinationShard: int,
    nonce: int,
    previousTransactionHash: Option<string>,
    originalTransactionHash: Option<string>,
    gasPrice: Option<int>,
    gasLimit: Option<int>,
    epoch: int)

  /** `getDataDecoded`: absent when `data` is absent or the empty string (both falsy in JavaScript). */
  function DataDecoded(tx: ShardTransaction): (r: Option<string>)
    ensures r.Some? <==> tx.data.Some? && tx.data.value != ""
    ensures r.Some? ==> |r.value| <= |tx.data.value| && forall i :: 0 <= i < |r.value| ==> r.value[i] as int < 256
  {
    if tx.data.Some? && tx.data.value != "" then Some(Base64.Decode(tx.data.value)) else None
  }

  /** JavaScript's `String.prototype.split` with a one-character separator. */
  function Split(s: string, sep: char): (parts: seq<string>)
    ensures |parts| >= 1
    ensures forall i :: 0 <= i < |parts| ==> sep !in parts[i]
  {
    if s == [] then [""]
    else
      var rest := Split(s[1..], sep);
      if s[0] == sep then [""] + rest
      else [[s[0]] + rest[0]] + rest[1..]
  }

  /** The inverse of `Split`: the pieces with the separator between them. */
  function Join(parts: seq<string>, sep: char): string
    requires |parts| >= 1
  {
    if |parts| == 1 then parts[0] else parts[0] + [sep] + Join(parts[1..], sep)
  }

  lemma {:induction false} JoinSplit(s: string, sep: char)
    ensures Join(Split(s, sep), sep) == s
  {
    if s != [] {
      var rest := Split(s[1..], sep);
      JoinSplit(s[1..], sep);
      if s[0] == sep {
        assert Split(s, sep)[1..] == rest;
        assert s == [sep] + s[1..];
      } else if |rest| == 1 {
        assert s == [s[0]] + s[1..];
      } else {
        var parts := Split(s, sep);
        assert parts[1..] == rest[1..];
        assert Join(rest, sep) == rest[0] + [sep] + Join(rest[1..], sep);
        assert s == [s[0]] + s[1..];
      }
    }
  }

  lemma {:induction false} SplitJoin(parts: seq<string>, sep: char)
    requires |parts| >= 1
    requires forall i :: 0 <= i < |parts| ==> sep !in parts[i]
    ensures Split(Join(parts, sep), sep) == parts
  {
    if |parts| == 1 {
      SplitPiece(parts[0], sep);
    } else {
      SplitJoin(parts[1..], sep);
      SplitSeparated(parts[0], Join(parts[1..], sep), sep);
      assert parts == [parts[0]] + parts[1..];
    }
  }

  /** A piece without the separator splits into itself. */
  lemma {:induction false} SplitPiece(p: string, sep: char)
    requires sep !in p
    ensures Split(p, sep) == [p]
  {
    if p != [] {
      SplitPiece(p[1..], sep);
      assert p == [p[0]] + p[1..];
    }
  }

  /** A piece, the separator and a rest split into the piece followed by the rest's pieces. */
  lemma {:induction false} SplitSeparated(p: string, rest: string, sep: char)
    requires sep !in p
    ensures Split(p + [sep] + rest, sep) == [p] + Split(rest, sep)
  {
    if p == [] {
      assert p + [sep] + rest == [sep] + rest;
      assert ([sep] + rest)[1..] == rest;
    } else {
      var s := p + [sep] + rest;
      assert s[1..] == p[1..] + [sep] + rest;
      SplitSeparated(p[1..], rest, sep);
      assert [p[0]] + p[1..] == p;
    }
  }

  /** `getDataFunctionName`: the decoded data before the first `@`; absent when the decoded data is absent or empty. */
  function DataFunctionName(tx: ShardTransaction): (r: Option<string>)
    ensures r.Some? <==> DataDecoded(tx).Some? && DataDecoded(tx).value != ""
    ensures r.Some? ==> '@' !in r.value
  {
    match DataDecoded(tx)
    case Some(decoded) => if decoded != "" then Some(Split(decoded, '@')[0]) else None
    case None => None
  }

  /** `getDataArgs`: the `@`-separated pieces after the function name, in order (`split('@').splice(1)`). */
  function DataArgs(tx: ShardTransaction): (r: Option<seq<string>>)
    ensures r.Some? <==> DataFunctionName(tx).Some?
    ensures r.Some? ==> forall i :: 0 <= i < |r.value| ==> '@' !in r.value[i]
  {
    match DataDecoded(tx)
    case Some(decoded) => if decoded != "" then Some(Split(decoded, '@')[1..]) else None
    case None => None
  }

  /**
   * The function name and the arguments are both present exactly when the
   * decoded data is a non-empty text; then the name holds no `@` and joining
   * name and arguments with `@` gives the decoded data back.
   */
  lemma DataFunctionCall(tx: ShardTransaction)
    ensures DataFunctionName(tx).Some? <==> DataDecoded(tx).Some? && DataDecoded(tx).value != ""
    ensures DataArgs(tx).Some? <==> DataFunctionName(tx).Some?
    ensures DataFunctionName(tx).Some? ==>
              '@' !in DataFunctionName(tx).value
              && (forall i :: 0 <= i < |DataArgs(tx).value| ==> '@' !in DataArgs(tx).value[i])
              && Join([DataFunctionName(tx).value] + DataArgs(tx).value, '@') == DataDecoded(tx).value
  {
    if DataFunctionName(tx).Some? {
      var decoded := DataDecoded(tx).value;
      JoinSplit(decoded, '@');
      var parts := Split(decoded, '@');
      assert [parts[0]] + parts[1..] == parts;
    }
  }

  /** The text whose Latin-1 bytes are `t`. */
  function Bytes(t: string): (b: seq<Base64.Byte>)
    requires forall i :: 0 <= i < |t| ==> t[i] as int < 256
    ensures |b| == |t|
  {
    seq(|t|, i requires 0 <= i < |t| => t[i] as int)
  }

  /**
   * A transaction whose data is the base64 encoding of `name@arg1@...@argN`
   * yields exactly that name and those arguments.
   */
  lemma EncodedCall(tx: ShardTransaction, name: string, args: seq<string>)
    requires '@' !in name && forall i :: 0 <= i < |args| ==> '@' !in args[i]
    requires var t := Join([name] + args, '@'); t != "" && forall i :: 0 <= i < |t| ==> t[i] as int < 256
    requires tx.data == Some(Base64.Encode(Bytes(Join([name] + args, '@'))))
    ensures DataFunctionName(tx) == Some(name)
    ensures DataArgs(tx) == Some(args)
  {
    var t := Join([name] + args, '@');
    Base64.DecodeOfEncode(Bytes(t));
    assert Base64.Latin1(Bytes(t)) == t;
    assert DataDecoded(tx) == Some(t);
    SplitJoin([name] + args, '@');
    assert ([name] + args)[1..] == args;
  }

  /** The data of an SCR that reports success: `@ok`, with its argument hex-encoded. */
  const OK_MARKER: string := "@6f6b"

  predicate IsOkMarker(tx: ShardTransaction) {
    DataDecoded(tx) == Some(OK_MARKER)
  }

  lemma OkMarkerData(tx: ShardTransaction)
    requires tx.data == Some("QDZmNmI=")
    ensures IsOkMarker(tx)
  {
    Base64.OkMarkerText();
  }
}
