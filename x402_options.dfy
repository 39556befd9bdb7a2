/**
 * The command-line option scanner of `x402_invoke.ts` (lines 17-29): every token
 * that starts with `--` names an option; the next token becomes its value when it
 * is non-empty and does not itself start with `--`, otherwise the value is the
 * literal `"true"`. Later occurrences of a key overwrite earlier ones.
 */
module X402Options {
  import opened Text

  /** `arg.startsWith('--')`. */
  predicate IsFlag(token: string) {
    StartsWith(token, "--")
  }

  /** `arg.slice(2)`. */
  function FlagKey(token: string): string
    requires IsFlag(token)
  {
    token[2..]
  }

  /** The flag at `i` takes the next token as its value: it exists, is not empty, and is no flag. */
  predicate TakesValue(args: seq<string>, i: nat)
    requires i < |args|
  {
    i + 1 < |args| && args[i + 1] != "" && !IsFlag(args[i + 1])
  }

  /** The value the flag at index `i` is given. */
  function FlagValue(args: seq<string>, i: nat): string
    requires i < |args|
  {
    if TakesValue(args, i) then args[i + 1] else "true"
  }

  /** How many tokens the flag at `i` consumes, itself included. */
  function Width(args: seq<string>, i: nat): nat
    requires i < |args|
  {
    if TakesValue(args, i) then 2 else 1
  }

  /**
   * The options the scanner produces, read from the front: the first flag's entry
   * is overridden by whatever the rest of the tokens produce (`m + m'` keeps the
   * right-hand value on shared keys).
   */
  function Parse(args: seq<string>): map<string, string>
    decreases |args|
  {
    if args == [] then map[]
    else if IsFlag(args[0]) then
      map[FlagKey(args[0]) := FlagValue(args, 0)] + Parse(args[Width(args, 0)..])
    else Parse(args[1..])
  }

  /** The token at `j` is a flag whose key is `k`. */
  predicate FlagWithKeyAt(args: seq<string>, j: int, k: string) {
    0 <= j < |args| && IsFlag(args[j]) && FlagKey(args[j]) == k
  }

  /**
   * The scanning loop: it walks the tokens left to right, writes each flag's value
   * into the options and skips the token it consumed as a value.
   */
  method ScanOptions(args: seq<string>) returns (options: map<string, string>)
    ensures options == Parse(args)
  {
    options := map[];
    var i := 0;
    while i < |args|
      invariant 0 <= i <= |args|
      invariant options + Parse(args[i..]) == Parse(args)
    {
      var arg := args[i];
      if IsFlag(arg) {
        var key := arg[2..];
        assert args[i..][Width(args[i..], 0)..] == args[i + Width(args, i)..];
        if i + 1 < |args| && args[i + 1] != "" && !IsFlag(args[i + 1]) {
          options := options[key := args[i + 1]];
          i := i + 1;
        } else {
          options := options[key := "true"];
        }
      } else {
        assert args[i..][1..] == args[i + 1..];
      }
      i := i + 1;
    }
  }

  /** A key is present exactly when some flag token names it. */
  lemma {:induction false} ParseKeys(args: seq<string>, k: string)
    ensures k in Parse(args) <==> exists j :: FlagWithKeyAt(args, j, k)
    decreases |args|
  {
    if args != [] {
      var w := if IsFlag(args[0]) then Width(args, 0) else 1;
      var rest := args[w..];
      ParseKeys(rest, k);
      forall j | 0 <= j < |rest| ensures FlagWithKeyAt(rest, j, k) <==> FlagWithKeyAt(args, j + w, k) {
        assert rest[j] == args[j + w];
      }
      if w == 2 {
        assert !FlagWithKeyAt(args, 1, k);
      }
      if IsFlag(args[0]) {
        assert Parse(args).Keys == {FlagKey(args[0])} + Parse(rest).Keys;
        if FlagKey(args[0]) == k {
          assert FlagWithKeyAt(args, 0, k);
        }
      }
      if exists j :: FlagWithKeyAt(args, j, k) {
        var j :| FlagWithKeyAt(args, j, k);
        if j >= w {
          assert FlagWithKeyAt(rest, j - w, k);
        }
      }
      if k in Parse(rest) {
        var j :| FlagWithKeyAt(rest, j, k);
        assert FlagWithKeyAt(args, j + w, k);
      }
    }
  }

  /**
   * A repeated key keeps its last value: the last flag with key `k` decides
   * `Parse(args)[k]`, which is the next token when that token is a value and
   * `"true"` otherwise.
   */
  lemma {:induction false} ParseLastWins(args: seq<string>, j: nat)
    requires j < |args| && IsFlag(args[j])
    requires forall j' :: j < j' ==> !FlagWithKeyAt(args, j', FlagKey(args[j]))
    ensures FlagKey(args[j]) in Parse(args)
    ensures Parse(args)[FlagKey(args[j])] == FlagValue(args, j)
    decreases |args|
  {
    var k := FlagKey(args[j]);
    var w := if IsFlag(args[0]) then Width(args, 0) else 1;
    var rest := args[w..];
    if j == 0 {
      if k in Parse(rest) {
        ParseKeys(rest, k);
        var j' :| FlagWithKeyAt(rest, j', k);
        assert FlagWithKeyAt(args, j' + w, k);
      }
    } else {
      assert j >= w;
      assert rest[j - w] == args[j];
      forall j' | j - w < j' ensures !FlagWithKeyAt(rest, j', k) {
        if 0 <= j' < |rest| {
          assert rest[j'] == args[j' + w];
          assert !FlagWithKeyAt(args, j' + w, k);
        }
      }
      ParseLastWins(rest, j - w);
      assert FlagValue(rest, j - w) == FlagValue(args, j) by {
        assert j - w + 1 < |rest| <==> j + 1 < |args|;
        if j + 1 < |args| { assert rest[j - w + 1] == args[j + 1]; }
      }
    }
  }

  /** No option ever holds the empty string: a value token must be non-empty. */
  lemma {:induction false} ParseValuesNonEmpty(args: seq<string>, k: string)
    requires k in Parse(args)
    ensures Parse(args)[k] != ""
    decreases |args|
  {
    if IsFlag(args[0]) {
      if k in Parse(args[Width(args, 0)..]) {
        ParseValuesNonEmpty(args[Width(args, 0)..], k);
      }
    } else {
      ParseValuesNonEmpty(args[1..], k);
    }
  }
}
