/**
 * The flags of a verification constraint: three single-bit constants that
 * add_verification_constraint's three booleans are packed into.
 */
module VerificationFlags {

  const FROM_FIELD_IS_PROTECTED: bv32 := 1 << 0
  const FROM_IS_ARRAY: bv32 := 1 << 1
  const FROM_IS_OBJECT: bv32 := 1 << 2

  /** The bits any encoding may use. */
  const ALL_FLAGS: bv32 := FROM_FIELD_IS_PROTECTED | FROM_IS_ARRAY | FROM_IS_OBJECT

  /** The three facts recorded about the "from" side of an assignability check. */
  datatype ConstraintFlags = ConstraintFlags(
    fromFieldIsProtected: bool,
    fromIsArray: bool,
    fromIsObject: bool)

  /** A mask with exactly one bit set. */
  predicate IsSingleBit(m: bv32)
  {
    m != 0 && m & (m - 1) == 0
  }

  /** The three constants are single bits, pairwise disjoint. */
  lemma FlagsAreDistinctBits()
    ensures IsSingleBit(FROM_FIELD_IS_PROTECTED)
    ensures IsSingleBit(FROM_IS_ARRAY)
    ensures IsSingleBit(FROM_IS_OBJECT)
    ensures FROM_FIELD_IS_PROTECTED & FROM_IS_ARRAY == 0
    ensures FROM_FIELD_IS_PROTECTED & FROM_IS_OBJECT == 0
    ensures FROM_IS_ARRAY & FROM_IS_OBJECT == 0
  {
  }

  /** Packs the booleans: each one sets its own bit and no other bit is set. */
  function Encode(f: ConstraintFlags): (m: bv32)
    ensures m & !ALL_FLAGS == 0
    ensures (m & FROM_FIELD_IS_PROTECTED != 0) == f.fromFieldIsProtected
    ensures (m & FROM_IS_ARRAY != 0) == f.fromIsArray
    ensures (m & FROM_IS_OBJECT != 0) == f.fromIsObject
  {
    (if f.fromFieldIsProtected then FROM_FIELD_IS_PROTECTED else 0)
    | (if f.fromIsArray then FROM_IS_ARRAY else 0)
    | (if f.fromIsObject then FROM_IS_OBJECT else 0)
  }

  /** Reads the booleans back by testing each bit; bits outside the three
      flags are ignored. */
  function Decode(m: bv32): (f: ConstraintFlags)
    ensures f.fromFieldIsProtected <==> m & FROM_FIELD_IS_PROTECTED == FROM_FIELD_IS_PROTECTED
    ensures f.fromIsArray <==> m & FROM_IS_ARRAY == FROM_IS_ARRAY
    ensures f.fromIsObject <==> m & FROM_IS_OBJECT == FROM_IS_OBJECT
  {
    ConstraintFlags(
      m & FROM_FIELD_IS_PROTECTED != 0,
      m & FROM_IS_ARRAY != 0,
      m & FROM_IS_OBJECT != 0)
  }

  /** Decoding an encoding gives back the same three booleans. */
  lemma DecodeEncode(f: ConstraintFlags)
    ensures Decode(Encode(f)) == f
  {
  }

  /** Encoding what was decoded keeps exactly the three flag bits. */
  lemma EncodeDecode(m: bv32)
    ensures Encode(Decode(m)) == m & ALL_FLAGS
  {
  }

  /** Different flag triples never share a mask. */
  lemma EncodeInjective(f: ConstraintFlags, g: ConstraintFlags)
    requires Encode(f) == Encode(g)
    ensures f == g
  {
    DecodeEncode(f);
    DecodeEncode(g);
  }

  /** A recorded verification constraint: the class name that must be
      assignable from from_name, with the packed flags. */
  datatype VerificationConstraint = VerificationConstraint(
    name: string,
    fromName: string,
    flags: bv32)

  /** The record add_verification_constraint's arguments describe. */
  function MakeConstraint(name: string, fromName: string,
                          fromFieldIsProtected: bool, fromIsArray: bool, fromIsObject: bool)
    : (c: VerificationConstraint)
    ensures c.name == name && c.fromName == fromName
    ensures Decode(c.flags) == ConstraintFlags(fromFieldIsProtected, fromIsArray, fromIsObject)
    ensures c.flags & !ALL_FLAGS == 0
  {
    VerificationConstraint(name, fromName,
      Encode(ConstraintFlags(fromFieldIsProtected, fromIsArray, fromIsObject)))
  }
}
