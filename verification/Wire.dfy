/** The byte-level vocabulary shared by client and server: the constants of the program,
    the two in-band sentinel lines, and C strings.  A byte is a Dafny `char`; nothing below
    depends on its range, so every statement covers the 256 byte values. */
module Wire {

  const MAXLINE: nat := 4096
  const NL: char := '\n'
  const NUL: char := '\0'

  const OPT_INTERRUPT := 1
  const OPT_SHUTDOWN := 2

  const SEND_INTERRUPT := "\n---sjdavidsINTERRUPTsjdavids---\n"
  const READ_INTERRUPT := "---sjdavidsINTERRUPTsjdavids---\n"
  const SEND_SHUTDOWN := "\n---sjdavidsSHUTDOWNsjdavids---\n"
  const READ_SHUTDOWN := "---sjdavidsSHUTDOWNsjdavids---\n"

  // `strlen` of the two lines the client looks for
  const INTERRUPT_LENGTH: nat := 32
  const SHUTDOWN_LENGTH: nat := 31

  predicate ValidOption(opt: int) {
    opt == OPT_INTERRUPT || opt == OPT_SHUTDOWN
  }

  /** What the canceller writes for an option, and the line the client looks for. */
  function SendLine(opt: int): string
    requires ValidOption(opt)
  {
    if opt == OPT_INTERRUPT then SEND_INTERRUPT else SEND_SHUTDOWN
  }

  function ReadSentinel(opt: int): string
    requires ValidOption(opt)
  {
    if opt == OPT_INTERRUPT then READ_INTERRUPT else READ_SHUTDOWN
  }

  predicate NulFree(s: string) {
    forall i :: 0 <= i < |s| ==> s[i] != NUL
  }

  /** `strlen`: the bytes before the first NUL (a sequence without one is its own string). */
  function Strlen(s: string): (n: nat)
    ensures n <= |s|
    ensures forall i :: 0 <= i < n ==> s[i] != NUL
    ensures n < |s| ==> s[n] == NUL
  {
    if s == "" || s[0] == NUL then 0 else 1 + Strlen(s[1..])
  }

  /** The C string that starts at the beginning of `s`. */
  function CStr(s: string): string {
    s[..Strlen(s)]
  }

  lemma Assoc(a: string, b: string, c: string)
    ensures a + b + c == a + (b + c)
  {
  }

  /** The two characteristic facts of `Strlen` determine it. */
  lemma StrlenIs(s: string, n: nat)
    requires n <= |s| && forall i :: 0 <= i < n ==> s[i] != NUL
    requires n < |s| ==> s[n] == NUL
    ensures Strlen(s) == n
  {
  }
}
