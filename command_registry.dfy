/**
 * The `_hci_command` class decorator (bdaddr.py:64-79) and the eight vendor
 * command classes it registers (bdaddr.py:176-238): the attributes it sets
 * on each class, the default `name`, and the global `command_classes`
 * dictionary keyed by op-code.
 */
module CommandRegistry {
  import opened Hci
  import opened VendorCommands

  // ----- the default name -----

  /** Python's `str.upper` on one character, for ASCII letters. */
  function AsciiUpper(c: char): (u: char)
    ensures 'a' <= c <= 'z' ==> u as int == c as int - 32
    ensures !('a' <= c <= 'z') ==> u == c
    ensures !('a' <= u <= 'z')
  {
    if 'a' <= c <= 'z' then (c as int - 32) as char else c
  }

  /** Python's `s.upper()` on an ASCII string. */
  function Upper(s: string): (r: string)
    ensures |r| == |s|
    ensures forall i :: 0 <= i < |s| ==> !('a' <= r[i] <= 'z')
  {
    seq(|s|, i requires 0 <= i < |s| => AsciiUpper(s[i]))
  }

  /** Python's `s.lstrip(c)`: drop the leading run of `c`. */
  function StripLeading(s: string, c: char): (r: string)
    ensures |r| <= |s| && r == s[|s| - |r|..]
    ensures forall i :: 0 <= i < |s| - |r| ==> s[i] == c
    ensures r != [] ==> r[0] != c
    decreases |s|
  {
    if s != [] && s[0] == c then StripLeading(s[1..], c) else s
  }

  /** Python's `s.rstrip(c)`: drop the trailing run of `c`. */
  function StripTrailing(s: string, c: char): (r: string)
    ensures |r| <= |s| && r == s[..|r|]
    ensures forall i :: |r| <= i < |s| ==> s[i] == c
    ensures r != [] ==> r[|r| - 1] != c
    decreases |s|
  {
    if s != [] && s[|s| - 1] == c then StripTrailing(s[..|s| - 1], c) else s
  }

  /**
   * Python's `s.strip(c)`: never longer, neither starting nor ending with
   * `c`, and the string itself when it holds no `c`.
   */
  function Strip(s: string, c: char): (r: string)
    ensures |r| <= |s|
    ensures r != [] ==> r[0] != c && r[|r| - 1] != c
    ensures c !in s ==> r == s
  {
    StripTrailing(StripLeading(s, c), c)
  }

  /**
   * `strip` keeps one contiguous piece of the string: everything cut off on
   * either side is `c`.
   */
  lemma StripKeepsMiddle(s: string, c: char)
    ensures exists i, j :: (0 <= i <= j <= |s| && Strip(s, c) == s[i..j] &&
      (forall k :: 0 <= k < i ==> s[k] == c) && (forall k :: j <= k < |s| ==> s[k] == c))
  {
    var l := StripLeading(s, c);
    var r := StripTrailing(l, c);
    var i := |s| - |l|;
    var j := i + |r|;
    assert l == s[i..];
    assert r == l[..|r|];
    assert r == s[i..j];
    assert forall k :: 0 <= k < i ==> s[k] == c;
    assert forall k :: j <= k < |s| ==> s[k] == c by {
      forall k | j <= k < |s| ensures s[k] == c {
        assert s[k] == l[k - i];
      }
    }
    if r != [] {
      assert r[0] == l[0];
    }
  }

  /** Stripping twice strips nothing more. */
  lemma StripIdempotent(s: string, c: char)
    ensures Strip(Strip(s, c), c) == Strip(s, c)
  {
    var t := Strip(s, c);
    if t != [] {
      assert StripLeading(t, c) == t;
      assert StripTrailing(t, c) == t;
    }
  }

  /** `cls.__name__.upper().strip("_")`. */
  function DefaultName(className: string): (r: string)
    ensures forall i :: 0 <= i < |r| ==> !('a' <= r[i] <= 'z')
    ensures r != [] ==> r[0] != '_' && r[|r| - 1] != '_'
  {
    var u := Upper(className);
    StripKeepsMiddle(u, '_');
    Strip(u, '_')
  }

  /**
   * `name or cls.__name__.upper().strip("_")`: Python's `or` falls back to
   * the class name both for `None` and for the empty string.
   */
  function CommandName(name: Option<string>, className: string): (r: string)
    ensures name.Some? && name.value != "" ==> r == name.value
    ensures name.None? || name.value == "" ==> r == DefaultName(className)
  {
    if name.Some? && name.value != "" then name.value else DefaultName(className)
  }

  // ----- classes and the registry -----

  /** How a field is serialised: by `Address.parse_address`, a fixed size, or `"*"`. */
  datatype FieldKind = AddressField | FixedSize(size: nat) | VariableSize
  datatype FieldSpec = FieldSpec(fieldName: string, kind: FieldKind)

  /** A Python command class and the attributes `_hci_command` sets on it. */
  class CommandClass {
    const pythonName: string
    var name: string
    var opCode: int
    var fields: Option<seq<FieldSpec>>
    var returnParametersFields: Option<seq<FieldSpec>>
    /** Whether `__init__` was replaced by one that passes `cls.op_code` on. */
    var initPassesOpCode: bool

    /** A class statement before its decorator runs. */
    constructor (pythonName: string)
      ensures this.pythonName == pythonName && name == pythonName
      ensures fields == None && returnParametersFields == None && !initPassesOpCode
    {
      this.pythonName := pythonName;
      name := pythonName;
      opCode := 0;
      fields := None;
      returnParametersFields := None;
      initPassesOpCode := false;
    }
  }

  /** `dict[k] = v` applied for each registration in turn. */
  function RegisterAll<T>(m: map<int, T>, registrations: seq<(int, T)>): (r: map<int, T>)
    ensures m.Keys <= r.Keys
    decreases |registrations|
  {
    if registrations == [] then m
    else RegisterAll(m[registrations[0].0 := registrations[0].1], registrations[1..])
  }

  /** The last registration under a key is the one the dictionary keeps. */
  lemma {:induction false} LastRegistrationWins<T>(m: map<int, T>, registrations: seq<(int, T)>, i: nat)
    requires i < |registrations|
    requires forall j :: i < j < |registrations| ==> registrations[j].0 != registrations[i].0
    ensures registrations[i].0 in RegisterAll(m, registrations)
    ensures RegisterAll(m, registrations)[registrations[i].0] == registrations[i].1
    decreases |registrations|
  {
    var m' := m[registrations[0].0 := registrations[0].1];
    if i == 0 {
      RegistrationsElsewhereKeep(m', registrations[1..], registrations[0].0);
    } else {
      LastRegistrationWins(m', registrations[1..], i - 1);
    }
  }

  /** Keys no registration names keep their old entry (or stay absent). */
  lemma {:induction false} RegistrationsElsewhereKeep<T>(m: map<int, T>, registrations: seq<(int, T)>, key: int)
    requires forall j :: 0 <= j < |registrations| ==> registrations[j].0 != key
    ensures key in RegisterAll(m, registrations) <==> key in m
    ensures key in m ==> RegisterAll(m, registrations)[key] == m[key]
    decreases |registrations|
  {
    if registrations != [] {
      assert registrations[0].0 != key;
      RegistrationsElsewhereKeep(m[registrations[0].0 := registrations[0].1], registrations[1..], key);
    }
  }

  /** The op-codes a sequence of registrations names. */
  function RegisteredKeys<T>(registrations: seq<(int, T)>): set<int>
  {
    set j | 0 <= j < |registrations| :: registrations[j].0
  }

  lemma RegisteredKeysCons<T>(registrations: seq<(int, T)>)
    requires registrations != []
    ensures RegisteredKeys(registrations) == {registrations[0].0} + RegisteredKeys(registrations[1..])
  {
    var rest := registrations[1..];
    forall j | 0 <= j < |registrations| && j > 0 ensures registrations[j].0 in RegisteredKeys(rest) {
      assert registrations[j] == rest[j - 1];
    }
    forall j | 0 <= j < |rest| ensures rest[j].0 in RegisteredKeys(registrations) {
      assert rest[j] == registrations[j + 1];
    }
  }

  /** The dictionary's keys afterwards: the old ones and every registered op-code. */
  lemma {:induction false} RegisterAllKeys<T>(m: map<int, T>, registrations: seq<(int, T)>)
    ensures RegisterAll(m, registrations).Keys == m.Keys + RegisteredKeys(registrations)
    decreases |registrations|
  {
    if registrations != [] {
      var m' := m[registrations[0].0 := registrations[0].1];
      RegisterAllKeys(m', registrations[1..]);
      RegisteredKeysCons(registrations);
    }
  }

  /** How many decorated class statements bdaddr.py:176-238 holds. */
  const DeclarationCount: nat := 8

  /** The command class of the `i`-th decorated class statement, in source order. */
  function Declaration(i: nat): CommandKind
    requires i < DeclarationCount
  {
    if i == 0 then EricssonWriteBDAddr
    else if i == 1 then EricssonStoreInFlash
    else if i == 2 then CsrWriteBDAddr
    else if i == 3 then TiWriteBDAddr
    else if i == 4 then BcmWriteBDAddr
    else if i == 5 then IntelWriteBDAddr
    else if i == 6 then CysWriteBDAddr
    else ZeevoWriteBDAddr
  }

  function PythonName(k: CommandKind): string
  {
    match k
    case EricssonWriteBDAddr => "_Ericsson_Write_BDAddr_Command"
    case EricssonStoreInFlash => "_Ericsson_Store_In_Flash_Command"
    case CsrWriteBDAddr => "_CSR_Write_BDAddr_Command"
    case TiWriteBDAddr => "_TI_Write_BDAddr_Command"
    case BcmWriteBDAddr => "_BCM_Write_BDAddr_Command"
    case IntelWriteBDAddr => "_Intel_Write_BDAddr_Command"
    case CysWriteBDAddr => "_CYS_Write_BDAddr_Command"
    case ZeevoWriteBDAddr => "_Zeevo_Write_BDAddr_Command"
    case HciReset => "HCI_Reset_Command"
  }

  /** The `fields` argument each decorator passes. */
  function FieldsOf(k: CommandKind): seq<FieldSpec>
  {
    match k
    case EricssonStoreInFlash =>
      [FieldSpec("user_id", FixedSize(1)), FieldSpec("length", FixedSize(1)), FieldSpec("data", FixedSize(253))]
    case CsrWriteBDAddr => [FieldSpec("payload", VariableSize)]
    case HciReset => []
    case _ => [FieldSpec("address", AddressField)]
  }

  /**
   * A class name with one leading underscore and none at the end, like all
   * eight here, gets its upper-cased name without that underscore.
   */
  lemma DefaultNameOfPrivateClass(className: string)
    requires |className| >= 2 && className[0] == '_' && className[1] != '_'
    requires className[|className| - 1] != '_'
    ensures DefaultName(className) == Upper(className[1..])
  {
    var u := Upper(className);
    assert u[1..] == Upper(className[1..]);
    assert StripLeading(u[1..], '_') == u[1..];
    assert StripTrailing(u[1..], '_') == u[1..];
  }

  /**
   * What one decorated class statement of bdaddr.py:176-238 leaves on its
   * class (its Python name is stated by `Registry.Declare`).
   */
  predicate Declared(cls: CommandClass, k: CommandKind)
    reads cls
  {
    && cls.opCode == OpCodeOf(k)
    && cls.fields == Some(FieldsOf(k))
    && cls.returnParametersFields == Some([])
    && cls.initPassesOpCode
  }

  /** The global `HCI_Command.command_classes` dictionary. */
  class Registry {
    var commandClasses: map<int, CommandClass>

    constructor (initial: map<int, CommandClass>)
      ensures commandClasses == initial
    {
      commandClasses := initial;
    }

    /** `_hci_command(op_code, name, fields, return_parameters_fields)(cls)`. */
    method HciCommand(opCode: int, name: Option<string>, fields: Option<seq<FieldSpec>>,
                      returnParametersFields: Option<seq<FieldSpec>>, cls: CommandClass)
      returns (r: CommandClass)
      modifies this, cls
      ensures r == cls
      ensures cls.name == CommandName(name, cls.pythonName)
      ensures cls.opCode == opCode && cls.fields == fields
      ensures cls.returnParametersFields == returnParametersFields
      ensures cls.initPassesOpCode == (fields.Some? || old(cls.initPassesOpCode))
      ensures commandClasses == old(commandClasses)[opCode := cls]
    {
      var defaultedName := CommandName(name, cls.pythonName);
      cls.name := defaultedName;
      cls.opCode := opCode;
      cls.fields := fields;
      cls.returnParametersFields := returnParametersFields;
      cls.initPassesOpCode := fields.Some? || cls.initPassesOpCode;
      commandClasses := commandClasses[opCode := cls];
      r := cls;
    }

    /** One decorated class statement: `@_hci_command(op_code, fields=...)` on a new class. */
    method Declare(k: CommandKind) returns (cls: CommandClass)
      modifies this
      ensures fresh(cls) && cls.pythonName == PythonName(k) && Declared(cls, k)
      ensures commandClasses == old(commandClasses)[OpCodeOf(k) := cls]
    {
      cls := new CommandClass(PythonName(k));
      var r := HciCommand(OpCodeOf(k), None, Some(FieldsOf(k)), Some([]), cls);
    }

    /**
     * Importing the module: the eight decorated class statements run in
     * source order (`Declaration(0)` .. `Declaration(7)`), each making a new
     * class with the default `name` and `return_parameters_fields=[]`.
     */
    method DeclareVendorCommands() returns (classes: seq<CommandClass>)
      modifies this
      ensures |classes| == DeclarationCount
      ensures forall i :: 0 <= i < |classes| ==> fresh(classes[i]) && Declared(classes[i], Declaration(i))
      ensures forall i, j :: 0 <= i < j < |classes| ==> classes[i] != classes[j]
      ensures commandClasses == RegisterAll(old(commandClasses), Registrations(classes))
    {
      classes := [];
      for i := 0 to DeclarationCount
        invariant |classes| == i
        invariant forall j :: 0 <= j < i ==> fresh(classes[j]) && Declared(classes[j], Declaration(j))
        invariant forall j, j' :: 0 <= j < j' < i ==> classes[j] != classes[j']
        invariant commandClasses == RegisterAll(old(commandClasses), Registrations(classes))
      {
        var cls := Declare(Declaration(i));
        RegisterAllSnoc(old(commandClasses), Registrations(classes), (OpCodeOf(Declaration(i)), cls));
        assert Registrations(classes + [cls]) == Registrations(classes) + [(OpCodeOf(Declaration(i)), cls)];
        classes := classes + [cls];
      }
    }
  }

  /** The (op-code, class) pairs the decorators register, in declaration order. */
  function Registrations(classes: seq<CommandClass>): (rs: seq<(int, CommandClass)>)
    requires |classes| <= DeclarationCount
    ensures |rs| == |classes|
    ensures forall i :: 0 <= i < |classes| ==> rs[i] == (OpCodeOf(Declaration(i)), classes[i])
  {
    seq(|classes|, i requires 0 <= i < |classes| => (OpCodeOf(Declaration(i)), classes[i]))
  }

  /** One more registration after a run of them. */
  lemma {:induction false} RegisterAllSnoc<T>(m: map<int, T>, registrations: seq<(int, T)>, last: (int, T))
    ensures RegisterAll(m, registrations + [last]) == RegisterAll(m, registrations)[last.0 := last.1]
    decreases |registrations|
  {
    if registrations != [] {
      assert (registrations + [last])[1..] == registrations[1..] + [last];
      RegisterAllSnoc(m[registrations[0].0 := registrations[0].1], registrations[1..], last);
    }
  }

  /**
   * After the eight decorators, 0xFC01 (shared by BCM, CYS and Zeevo) maps
   * to the Zeevo class, the last one registered, and the dictionary has
   * gained exactly the six distinct vendor op-codes.
   */
  lemma ZeevoOwnsSharedOpCode(m: map<int, CommandClass>, classes: seq<CommandClass>)
    requires |classes| == DeclarationCount
    ensures var d := RegisterAll(m, Registrations(classes));
      0xFC01 in d && d[0xFC01] == classes[7] &&
      d.Keys == m.Keys + {0xFC0D, 0xFC22, 0xFC00, 0xFC06, 0xFC01, 0xFC31}
  {
    OpCodeTable();
    var rs := Registrations(classes);
    LastRegistrationWins(m, rs, 7);
    RegisterAllKeys(m, rs);
    assert RegisteredKeys(rs) == {0xFC0D, 0xFC22, 0xFC00, 0xFC06, 0xFC01, 0xFC31} by {
      assert rs[0].0 == 0xFC0D && rs[1].0 == 0xFC22 && rs[2].0 == 0xFC00 && rs[3].0 == 0xFC06;
      assert rs[4].0 == 0xFC01 && rs[5].0 == 0xFC31 && rs[6].0 == 0xFC01;
    }
  }
}
