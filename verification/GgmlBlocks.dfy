/** The blocks tensors of each type are stored in, as the structures of ggml/src/ggml-common.h lay them out, and the
    reader's table of sizes against them. */
module GgmlBlocks {
  import opened Wrappers
  import opened Ggml

  /** A block of `elements` values: `extra` bytes of scales, minima, sums and shared bits, and `bits` bits a value. */
  datatype Layout = Layout(elements: nat, extra: nat, bits: nat)

  function Scalar(bits: nat): (r: Option<Layout>) { Some(Layout(1, 0, bits)) }

  /** Blocks of the types with `K` in their name, and of their successors. */
  function Super(extra: nat, bits: nat): (r: Option<Layout>) { Some(Layout(256, extra, bits)) }

  /** The layout of a type, by its number; None if there is no such type. */
  function LayoutOf(dtype: nat): (r: Option<Layout>)
    ensures r.Some? ==> r.value.elements > 0
  {
    if dtype in {0, 26} then Scalar(32)                                      // F32, I32
    else if dtype in {1, 25, 30} then Scalar(16)                             // F16, I16, BF16
    else if dtype in {27, 28} then Scalar(64)                                // I64, F64
    else if dtype == 24 then Scalar(8)                                       // I8
    else if dtype in {2, 20} then Some(Layout(32, 2, 4))                     // Q4_0, IQ4_NL: a scale
    else if dtype == 3 then Some(Layout(32, 2 + 2, 4))                       // Q4_1: a scale and a minimum
    else if dtype == 6 then Some(Layout(32, 2, 5))                           // Q5_0
    else if dtype == 7 then Some(Layout(32, 2 + 2, 5))                       // Q5_1
    else if dtype == 8 then Some(Layout(32, 2, 8))                           // Q8_0
    else if dtype == 9 then Some(Layout(32, 2 + 2, 8))                       // Q8_1: a scale and a sum
    else if dtype == 10 then Super(2 + 2 + 16, 2)                            // Q2_K: 16 scales and minima of 4 bits
    else if dtype == 11 then Super(2 + 12, 3)                                // Q3_K: 16 scales of 6 bits
    else if dtype == 12 then Super(2 + 2 + 12, 4)                            // Q4_K: 8 scales and minima of 6 bits
    else if dtype == 13 then Super(2 + 2 + 12, 5)                            // Q5_K
    else if dtype == 14 then Super(2 + 16, 6)                                // Q6_K: 16 scales of 8 bits
    else if dtype == 15 then Super(4 + 2 * 16, 8)                            // Q8_K: a float and 16 sums
    else if dtype == 16 then Super(2, 2)                                     // IQ2_XXS
    else if dtype == 17 then Super(2 + 8, 2)                                 // IQ2_XS: 8 scales
    else if dtype == 18 then Super(2, 3)                                     // IQ3_XXS
    else if dtype == 19 then Super(2 + 2 * 8, 1)                             // IQ1_S: 8 words of high bits
    else if dtype == 21 then Super(2 + 8 + 4, 3)                             // IQ3_S: high bits and 4 scales
    else if dtype == 22 then Super(2 + 8 + 8, 2)                             // IQ2_S: high bits and 8 scales
    else if dtype == 23 then Super(2 + 2 + 4, 4)                             // IQ4_XS: scales of 6 bits in two parts
    else if dtype == 29 then Super(16 + 8, 1)                                // IQ1_M: high bits and scales
    else if dtype == 34 then Super(2 + 240 / 5 + 16 / 4, 0)                  // TQ1_0: 5 or 4 ternary digits a byte
    else if dtype == 35 then Super(2, 2)                                     // TQ2_0
    else if dtype == 39 then Some(Layout(32, 1, 4))                          // MXFP4: an exponent
    else if dtype == 40 then Some(Layout(64, 4, 4))                          // NVFP4: 4 scales
    else if dtype == 41 then Some(Layout(128, 2, 1))                         // Q1_0
    else if dtype == 42 then Some(Layout(64, 2, 2))                          // Q2_0
    else None
  }

  function BlockBytes(l: Layout): (n: nat) { l.extra + l.elements * l.bits / 8 }

  /** The number of the one type the reader's table and the structures disagree about. */
  const Q8_1 := 9

  /** The reader knows exactly the types that have a layout, and knows the block of every one of them but Q8_1: it takes
      four bytes each for its scale and its sum, where the structure has two. */
  lemma {:induction false} SizesExactly(dtype: nat)
    ensures QuantSize(dtype).None? <==> LayoutOf(dtype).None?
    ensures LayoutOf(dtype).Some? ==>
      (QuantSize(dtype).value == (LayoutOf(dtype).value.elements, BlockBytes(LayoutOf(dtype).value)) <==> dtype != Q8_1)
    ensures QuantSize(Q8_1) == Some((32, 40)) && BlockBytes(LayoutOf(Q8_1).value) == 36
  {
  }

  /** The bytes of a tensor. */
  function Stored(dims: seq<nat>, l: Layout): (n: nat)
    requires l.elements > 0
  {
    Product(dims) * BlockBytes(l) / l.elements
  }

  /** For every type but Q8_1 the reader's length is the number of bytes the blocks take, if it fits 63 bits. */
  lemma {:induction false} LengthExactly(dims: seq<nat>, dtype: nat)
    requires LayoutOf(dtype).Some? && dtype != Q8_1
    ensures QuantSize(dtype).Some? && QuantSize(dtype).value.0 > 0
    ensures var l := LayoutOf(dtype).value;
            ByteLength(dims, QuantSize(dtype).value) == Stored(dims, l) <==> Product(dims) * BlockBytes(l) < TWO_63
  {
    hide LayoutOf, QuantSize, Product, ByteLength;
    SizesExactly(dtype);
    BlocksSmall(dtype);
    SizeExactly(dims, QuantSize(dtype).value);
  }

  lemma {:induction false} BlocksSmall(dtype: nat)
    ensures LayoutOf(dtype).Some? ==> LayoutOf(dtype).value.elements <= 256
  {
  }
}
