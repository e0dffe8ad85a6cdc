/** Machine integers, C strings and the enumerations shared by the BPF programs and the loader. */
module Common {
  const U16_MAX: nat := 0xFFFF
  const U32_MAX: nat := 0xFFFF_FFFF
  const U64_MAX: nat := 0xFFFF_FFFF_FFFF_FFFF

  type Byte = b: nat | b < 256
  type U16 = n: nat | n <= U16_MAX
  type U32 = n: nat | n <= U32_MAX
  type U64 = n: nat | n <= U64_MAX
  type Bytes = seq<Byte>

  const RULE_VALUE_LEN: nat := 192
  const COMM_LEN: nat := 16
  const MAX_RULES: nat := 32
  const MAX_SCOPES: nat := 64
  const DENY_ERRNO: int := 13

  const ALLOW: U32 := 0
  const DENY: U32 := 1
  const AUDIT: U32 := 2
  const UNSET: U32 := 255

  datatype Option<+T> = None | Some(value: T)

  datatype Hook = Exec | FileOpen | FileRead | FileWrite | SocketConnect

  datatype RuleKind = PathPrefix | CommandPrefix | Ipv4Connect

  datatype Layer = L1 | L2 | L3

  predicate ActionValid(action: U32) {
    action == ALLOW || action == DENY || action == AUDIT
  }

  /** `isspace`, and what `strip` takes off a byte string. */
  predicate IsSpace(c: char) {
    c == ' ' || 9 <= c as int <= 13
  }

  const SPACES: set<char> := {' ', '\t', '\n', '\U{000B}', '\U{000C}', '\r'}

  lemma SpaceIsListed(c: char)
    ensures IsSpace(c) <==> c in SPACES
  {
    if 9 <= c as int <= 13 {
      assert c as int == 9 || c as int == 10 || c as int == 11 || c as int == 12 || c as int == 13;
    }
  }

  /** The bytes of a C string: no terminator inside. */
  predicate CString(s: Bytes) {
    forall i | 0 <= i < |s| :: s[i] != 0
  }
}
