// The deterministic stand-in embedder: a fixed-length vector drawn from a
// generator seeded by the stripped text, or all zeros for blank text. The
// seeded generator (a hash of the text feeding a pseudo-random source) is
// the parameter `draw`: `draw(t, i)` is the i-th value drawn for seed text `t`.
module Embeddings {
  import opened Wrappers
  import opened Text

  /** Length of every embedding, the width of the vector column. */
  const EmbeddingDim: nat := 1536

  function GetEmbedding(text: Option<string>, draw: (string, nat) -> real): (r: seq<real>)
    ensures |r| == EmbeddingDim
    ensures IsBlank(text.GetOr("")) ==> forall i :: 0 <= i < |r| ==> r[i] == 0.0
    ensures !IsBlank(text.GetOr("")) ==> forall i :: 0 <= i < |r| ==> r[i] == draw(Strip(text.GetOr("")), i)
  {
    var t := Strip(text.GetOr(""));
    StripEmptyIffBlank(text.GetOr(""));
    if t == [] then seq(EmbeddingDim, _ => 0.0)
    else seq(EmbeddingDim, i requires 0 <= i => draw(t, i))
  }

  /** Outer whitespace does not matter: a text and its stripped form get the
      same vector. */
  lemma EmbeddingIgnoresOuterWhitespace(text: string, draw: (string, nat) -> real)
    ensures GetEmbedding(Some(text), draw) == GetEmbedding(Some(Strip(text)), draw)
  {
    StripIdempotent(text);
    StripEmptyIffBlank(text);
    StripEmptyIffBlank(Strip(text));
  }

  /** `get_embeddings`: one embedding per text, in order. */
  function GetEmbeddings(texts: seq<string>, draw: (string, nat) -> real): (r: seq<seq<real>>)
    ensures |r| == |texts|
    ensures forall i :: 0 <= i < |texts| ==> r[i] == GetEmbedding(Some(texts[i]), draw)
  {
    seq(|texts|, i requires 0 <= i < |texts| => GetEmbedding(Some(texts[i]), draw))
  }

  /** Embedding a batch in two parts gives the same vectors as embedding it whole. */
  lemma EmbeddingsSplit(a: seq<string>, b: seq<string>, draw: (string, nat) -> real)
    ensures GetEmbeddings(a + b, draw) == GetEmbeddings(a, draw) + GetEmbeddings(b, draw)
  {
    var whole, left, right := GetEmbeddings(a + b, draw), GetEmbeddings(a, draw), GetEmbeddings(b, draw);
    assert |whole| == |left + right|;
    forall i | 0 <= i < |whole| ensures whole[i] == (left + right)[i] {
      if i < |a| { assert (a + b)[i] == a[i]; } else { assert (a + b)[i] == b[i - |a|]; }
    }
  }
}
