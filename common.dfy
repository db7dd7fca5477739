/** Values shared by the registry, the helpers and the commands: the
    exceptions the Python code can raise, what a command prints or runs,
    and how a command invocation ends. */
module Common {

  datatype Option<T> = None | Some(value: T)

  datatype Result<T> = Ok(value: T) | Err(failure: Failure)

  /** A registry record: (container_name, repository). */
  type Row = (string, string)

  /** The exceptions that reach a handler (or escape one). */
  datatype Failure =
    | StopIteration            // next() on os.walk of a path that is not a directory
    | IndexOutOfRange          // [...][0] on an empty list
    | OsError(path: string)    // stat, chdir, copy or rmtree on a missing path
    | ConnectFailed            // sqlite3 cannot open the database file
    | NoSuchTable              // sqlite3 OperationalError: the table was never created
    | UnpackError              // ValueError: `a, b = s.split(':')` with the wrong arity
    | Raised(message: string)  // Exception('...') raised by a command body itself

  /** What a command writes to the terminal or hands to an external program. */
  datatype Event =
    | Echo(text: string)                                 // click.echo / print of a literal
    | ShowError(failure: Failure)                        // print(e) in an exception handler
    | ShowInventory(inventory: map<string, seq<string>>) // print(models) in checkmodels
    | ShowImages(names: seq<string>)                     // pprint of the image list
    | Shell(command: string, dir: string)                // subprocess.run of a shell pipeline
    | Script(path: string, args: string, executable: bool) // ./script at `path`; whether its execute bit was set
    | Registered(row: Row)                               // the registry insert made by push

  /** How a command invocation ends. */
  datatype Exit =
    | Completed            // handler caught whatever was raised; the process ends normally
    | Aborted              // click's confirmation callback called ctx.abort()
    | Crashed(failure: Failure) // an exception escaped the command

  /** The elements of `s` that satisfy `p`, in their original order: the
      list comprehension `[x for x in s if p(x)]`. */
  function Filter<T(==)>(p: T -> bool, s: seq<T>): (r: seq<T>)
    ensures |r| <= |s|
    ensures forall i :: 0 <= i < |r| ==> r[i] in s && p(r[i])
    ensures forall i :: 0 <= i < |s| && p(s[i]) ==> s[i] in r
    decreases |s|
  {
    if s == [] then [] else (if p(s[0]) then [s[0]] else []) + Filter(p, s[1..])
  }

  /** Filtering a concatenation filters each part and keeps them in order. */
  lemma {:induction false} FilterConcat<T>(p: T -> bool, a: seq<T>, b: seq<T>)
    ensures Filter(p, a + b) == Filter(p, a) + Filter(p, b)
    decreases |a|
  {
    if a == [] {
      assert a + b == b;
    } else {
      assert (a + b)[1..] == a[1..] + b;
      FilterConcat(p, a[1..], b);
    }
  }

  /** Both predicates at once. */
  function Both<T>(p: T -> bool, q: T -> bool): T -> bool
  {
    x => p(x) && q(x)
  }

  /** Filtering twice is filtering once by both predicates. */
  lemma {:induction false} FilterTwice<T>(p: T -> bool, q: T -> bool, s: seq<T>)
    ensures Filter(q, Filter(p, s)) == Filter(Both(p, q), s)
    decreases |s|
  {
    if s != [] {
      FilterTwice(p, q, s[1..]);
      var head := if p(s[0]) then [s[0]] else [];
      FilterConcat(q, head, Filter(p, s[1..]));
      if p(s[0]) {
        assert Filter(q, head) == (if q(s[0]) then [s[0]] else []) + Filter(q, []);
      }
    }
  }

  /** A non-empty sequence is its head followed by its tail. */
  lemma HeadTail<T>(s: seq<T>)
    requires s != []
    ensures s == [s[0]] + s[1..]
  {
  }

  /** Concatenation is associative. */
  lemma ConcatAssoc<T>(a: seq<T>, b: seq<T>, c: seq<T>)
    ensures (a + b) + c == a + (b + c)
  {
  }

  /** `t` occurs in `s` as a contiguous run: Python's `t in s` on strings. */
  predicate Contains(s: string, t: string)
    decreases |s|
  {
    t <= s || (|s| > 0 && Contains(s[1..], t))
  }
}
