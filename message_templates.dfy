/**
 * How the gameday messages fill a template: the `|N|` markers expanded,
 * then `#NAME#` placeholders replaced one after another by `str.replace`,
 * then `#..._BEGIN#` / `#..._END#` blocks kept or dropped in turn by
 * `replace_conditionally_message`.
 */
module MessageTemplates {
  import opened Strings
  import opened OutputActions

  /** A conditional block: its begin and end tags, and whether its content is kept. */
  datatype Block = Block(begin: string, end: string, keep: bool)

  /** The blocks applied in order, each one to the text the previous one left. */
  function ApplyBlocks(text: string, blocks: seq<Block>): string
    decreases |blocks|
  {
    if |blocks| == 0 then text
    else ApplyBlocks(ReplaceConditionally(text, blocks[0].begin, blocks[0].end, blocks[0].keep), blocks[1..])
  }

  /** Formatting, then the replacements in order, then the blocks in order. */
  function FillTemplate(template: string, pairs: seq<(string, string)>, blocks: seq<Block>): string
  {
    ApplyBlocks(ReplaceEach(FormatMessage(template), pairs), blocks)
  }

  /** The characters placeholder and tag names are written with. */
  predicate IsNameChar(c: char)
  {
    'A' <= c <= 'Z' || '0' <= c <= '9' || c == '_'
  }

  /** `#NAME#`: a name of capitals, digits and underscores between two hashes. */
  predicate IsPlaceholder(p: string)
  {
    |p| >= 3 && p[0] == '#' && p[|p| - 1] == '#' && forall k :: 0 < k < |p| - 1 ==> IsNameChar(p[k])
  }

  /** A placeholder's name: capitals, digits and underscores, at least one of them. */
  predicate IsName(name: string)
  {
    |name| > 0 && forall k :: 0 <= k < |name| ==> IsNameChar(name[k])
  }

  /** The placeholder `#NAME#` written for a name; it is one exactly when the name is one. */
  function Tag(name: string): (p: string)
    ensures IsName(name) <==> IsPlaceholder(p)
  {
    TagChars(name);
    "#" + name + "#"
  }

  lemma TagChars(name: string)
    ensures IsName(name) <==> IsPlaceholder("#" + name + "#")
  {
    var p := "#" + name + "#";
    forall k | 0 < k < |p| - 1
      ensures p[k] == name[k - 1]
    {
    }
    if IsPlaceholder(p) {
      forall k | 0 <= k < |name|
        ensures IsNameChar(name[k])
      {
        assert IsNameChar(p[k + 1]);
      }
    }
  }

  predicate AllPlaceholders(pairs: seq<(string, string)>)
  {
    forall j :: 0 <= j < |pairs| ==> IsPlaceholder(pairs[j].0)
  }

  predicate AllTags(blocks: seq<Block>)
  {
    forall j :: 0 <= j < |blocks| ==> IsPlaceholder(blocks[j].begin) && IsPlaceholder(blocks[j].end)
  }

  /** A text that differs from `q` at a position both have does not start with `q`. */
  lemma CharDiffers(p: string, q: string, k: nat)
    requires k < |p| && k < |q| && p[k] != q[k]
    ensures !StartsWith(p, q)
  {
    if |q| <= |p| {
      assert p[..|q|][k] == p[k];
    }
  }

  /**
   * Where a placeholder `q` may occur in a block: a hash in the text is the
   * first or last character of a tag, so `q` starts one of the tags or is
   * exactly the block's content between two hashes.
   */
  predicate ApartFrom(begin: string, inner: string, end: string, q: string)
  {
    !StartsWith(begin, q) && !StartsWith(end, q) && q != "#" + inner + "#"
  }

  lemma NotAcrossBlock(begin: string, inner: string, end: string, q: string)
    requires IsPlaceholder(begin) && IsPlaceholder(end) && IsPlaceholder(q) && '#' !in inner
    requires ApartFrom(begin, inner, end, q)
    ensures !Contains(begin + inner + end, q)
  {
    var s := begin + inner + end;
    var nb, ni, ne := |begin|, |inner|, |end|;
    assert !IsNameChar('#');
    forall i: nat | i <= |s|
      ensures !OccursAt(s, q, i)
    {
      if i + |q| <= |s| {
        var w := s[i..i + |q|];
        if i == 0 && |q| <= nb {
          assert w == begin[..|q|];
        } else if i == 0 {
          assert w[nb - 1] == begin[nb - 1] && q[nb - 1] != '#';
        } else if i < nb - 1 {
          assert w[0] == begin[i];
        } else if i == nb - 1 {
          var t := i + |q| - 1;
          if t < nb + ni {
            assert w[|q| - 1] == inner[t - nb];
          } else if t == nb + ni {
            assert w == "#" + inner + "#";
          } else {
            assert w[ni + 1] == end[0] && q[ni + 1] != '#';
          }
        } else if i < nb + ni {
          assert w[0] == inner[i - nb];
        } else if i == nb + ni {
          assert w == end[..|q|];
        } else {
          assert w[0] == end[i - nb - ni];
        }
      }
    }
  }

  /**
   * A placeholder occurs in another only at its head: a hash inside a
   * placeholder is its first or its last character.
   */
  lemma PlaceholderNotInside(p: string, q: string)
    requires IsPlaceholder(p) && IsPlaceholder(q) && !StartsWith(p, q)
    ensures !Contains(p, q)
  {
    forall i: nat | i <= |p|
      ensures !OccursAt(p, q, i)
    {
      if i + |q| <= |p| {
        if i == 0 {
          assert p[0..|q|] == p[..|q|];
        } else {
          assert p[i..i + |q|][0] == p[i];
          assert IsNameChar(p[i]);
        }
      }
    }
  }

  /** A placeholder has neither a newline nor a bar, so formatting keeps it. */
  lemma PlaceholderFormatted(p: string)
    requires IsPlaceholder(p)
    ensures FormatMessage(p) == p
  {
    assert forall k :: 0 <= k < |p| ==> p[k] != '\n' && p[k] != '|' by {
      assert !IsNameChar('\n') && !IsNameChar('|');
    }
    NoMarkerFormatted(p);
  }

  /** Text without a hash holds no placeholder, so no replacement touches it. */
  lemma HashFreeReplaced(s: string, pairs: seq<(string, string)>)
    requires '#' !in s && AllPlaceholders(pairs)
    ensures ReplaceEach(s, pairs) == s
  {
    forall j | 0 <= j < |pairs|
      ensures |pairs[j].0| > 0 && !Contains(s, pairs[j].0)
    {
      AbsentFirstChar(s, pairs[j].0);
    }
    ReplaceEachAbsent(s, pairs);
  }

  /** Text without a hash holds no tag, so every block leaves it as it is. */
  lemma {:induction false} HashFreeBlocks(s: string, blocks: seq<Block>)
    requires '#' !in s && AllTags(blocks)
    ensures ApplyBlocks(s, blocks) == s
    decreases |blocks|
  {
    if |blocks| > 0 {
      var b := blocks[0];
      AbsentFirstChar(s, b.begin);
      AbsentFirstChar(s, b.end);
      TaglessUnchanged(s, b.begin, b.end, b.keep);
      HashFreeBlocks(s, blocks[1..]);
    }
  }

  /** Text holding no tag of any block is left as it is by all of them. */
  lemma {:induction false} TaglessBlocks(s: string, blocks: seq<Block>)
    requires forall j :: 0 <= j < |blocks| ==>
      |blocks[j].begin| > 0 && |blocks[j].end| > 0 && !Contains(s, blocks[j].begin) && !Contains(s, blocks[j].end)
    ensures ApplyBlocks(s, blocks) == s
    decreases |blocks|
  {
    if |blocks| > 0 {
      TaglessUnchanged(s, blocks[0].begin, blocks[0].end, blocks[0].keep);
      TaglessBlocks(s, blocks[1..]);
    }
  }

  /**
   * A template that is exactly the placeholder of the `i`-th pair becomes
   * that pair's value, whatever the blocks say, when no earlier placeholder
   * starts it and the value holds no hash.
   */
  lemma RenderPlaceholder(pairs: seq<(string, string)>, blocks: seq<Block>, i: nat)
    requires i < |pairs| && AllPlaceholders(pairs) && AllTags(blocks)
    requires forall j :: 0 <= j < i ==> !StartsWith(pairs[i].0, pairs[j].0)
    requires '#' !in pairs[i].1
    ensures FillTemplate(pairs[i].0, pairs, blocks) == pairs[i].1
  {
    var p := pairs[i].0;
    PlaceholderFormatted(p);
    forall j | 0 <= j < i
      ensures |pairs[j].0| > 0 && !Contains(p, pairs[j].0)
    {
      PlaceholderNotInside(p, pairs[j].0);
    }
    forall j | i < j < |pairs|
      ensures |pairs[j].0| > 0 && !Contains(pairs[i].1, pairs[j].0)
    {
      AbsentFirstChar(pairs[i].1, pairs[j].0);
    }
    ReplaceEachOnly(p, pairs, i);
    HashFreeBlocks(pairs[i].1, blocks);
  }

  /**
   * A placeholder that no pair's placeholder and no tag starts is left in
   * the message as it is.
   */
  lemma RenderUnlisted(p: string, pairs: seq<(string, string)>, blocks: seq<Block>)
    requires IsPlaceholder(p) && AllPlaceholders(pairs) && AllTags(blocks)
    requires forall j :: 0 <= j < |pairs| ==> !StartsWith(p, pairs[j].0)
    requires forall j :: 0 <= j < |blocks| ==> !StartsWith(p, blocks[j].begin) && !StartsWith(p, blocks[j].end)
    ensures FillTemplate(p, pairs, blocks) == p
  {
    PlaceholderFormatted(p);
    forall j | 0 <= j < |pairs|
      ensures |pairs[j].0| > 0 && !Contains(p, pairs[j].0)
    {
      PlaceholderNotInside(p, pairs[j].0);
    }
    ReplaceEachAbsent(p, pairs);
    forall j | 0 <= j < |blocks|
      ensures |blocks[j].begin| > 0 && |blocks[j].end| > 0 && !Contains(p, blocks[j].begin) && !Contains(p, blocks[j].end)
    {
      PlaceholderNotInside(p, blocks[j].begin);
      PlaceholderNotInside(p, blocks[j].end);
    }
    TaglessBlocks(p, blocks);
  }

  /** A text that is exactly one block becomes its content, or nothing, once that block is applied. */
  lemma BlockReplaced(inner: string, b: Block)
    requires IsPlaceholder(b.begin) && IsPlaceholder(b.end)
    requires '#' !in inner && !StartsWith(b.end, b.begin)
    ensures ReplaceConditionally(b.begin + inner + b.end, b.begin, b.end, b.keep) == (if b.keep then inner else "")
  {
    var s := b.begin + inner + b.end;
    assert s == "" + (b.begin + inner + b.end + "");
    if b.keep {
      PlaceholderNotInside(b.end, b.begin);
      assert b.end + "" == b.end;
      assert !Contains("", b.end);
      KeepEnclosed("", inner, "", b.begin, b.end);
      assert "" + inner + "" == inner;
    } else {
      DropEnclosed("", inner, "", b.begin, b.end);
      assert !Contains("", b.begin);
      RemoveBlocksAbsent("", b.begin, b.end);
    }
  }

  /**
   * The blocks applied to a text that is exactly the `i`-th block, with no
   * other block's tag in it: its content is kept when its condition holds,
   * and the whole block disappears otherwise.
   */
  lemma BlocksOnOneBlock(inner: string, blocks: seq<Block>, i: nat)
    requires i < |blocks| && AllTags(blocks)
    requires '#' !in inner && !StartsWith(blocks[i].end, blocks[i].begin)
    requires forall j :: 0 <= j < |blocks| && j != i ==>
      !Contains(blocks[i].begin + inner + blocks[i].end, blocks[j].begin) &&
      !Contains(blocks[i].begin + inner + blocks[i].end, blocks[j].end)
    ensures ApplyBlocks(blocks[i].begin + inner + blocks[i].end, blocks) == (if blocks[i].keep then inner else "")
  {
    var b := blocks[i];
    var s := b.begin + inner + b.end;
    var xs, ys := blocks[..i], blocks[i + 1..];
    assert blocks == xs + ([b] + ys);
    forall j | 0 <= j < |xs|
      ensures |xs[j].begin| > 0 && |xs[j].end| > 0 && !Contains(s, xs[j].begin) && !Contains(s, xs[j].end)
    {
      assert xs[j] == blocks[j];
    }
    TaglessBlocks(s, xs);
    ApplyBlocksAppend(s, xs, [b] + ys);
    var t := ReplaceConditionally(s, b.begin, b.end, b.keep);
    BlockReplaced(inner, b);
    assert ([b] + ys)[1..] == ys;
    assert AllTags(ys) by {
      forall j | 0 <= j < |ys|
        ensures IsPlaceholder(ys[j].begin) && IsPlaceholder(ys[j].end)
      {
        assert ys[j] == blocks[i + 1 + j];
      }
    }
    assert '#' !in t;
    HashFreeBlocks(t, ys);
  }

  /** Blocks applied in two runs are the blocks applied in one. */
  lemma {:induction false} ApplyBlocksAppend(s: string, xs: seq<Block>, ys: seq<Block>)
    ensures ApplyBlocks(s, xs + ys) == ApplyBlocks(ApplyBlocks(s, xs), ys)
    decreases |xs|
  {
    if |xs| > 0 {
      assert (xs + ys)[0] == xs[0] && (xs + ys)[1..] == xs[1..] + ys;
      ApplyBlocksAppend(ReplaceConditionally(s, xs[0].begin, xs[0].end, xs[0].keep), xs[1..], ys);
    } else {
      assert xs + ys == ys;
    }
  }

  /**
   * A template that is exactly one block, whose content holds no hash,
   * newline or bar and whose tags no placeholder or other tag starts: the
   * message is the block's content when its condition holds and empty
   * otherwise.
   */
  lemma RenderOneBlock(inner: string, pairs: seq<(string, string)>, blocks: seq<Block>, i: nat)
    requires i < |blocks| && AllPlaceholders(pairs) && AllTags(blocks)
    requires '#' !in inner && '\n' !in inner && '|' !in inner
    requires !StartsWith(blocks[i].end, blocks[i].begin)
    requires forall j :: 0 <= j < |pairs| ==> ApartFrom(blocks[i].begin, inner, blocks[i].end, pairs[j].0)
    requires forall j :: 0 <= j < |blocks| && j != i ==>
      ApartFrom(blocks[i].begin, inner, blocks[i].end, blocks[j].begin) &&
      ApartFrom(blocks[i].begin, inner, blocks[i].end, blocks[j].end)
    ensures FillTemplate(blocks[i].begin + inner + blocks[i].end, pairs, blocks) == (if blocks[i].keep then inner else "")
  {
    var b, e := blocks[i].begin, blocks[i].end;
    var s := b + inner + e;
    assert FormatMessage(s) == s by {
      assert !IsNameChar('\n') && !IsNameChar('|');
      forall k | 0 <= k < |s|
        ensures s[k] != '\n' && s[k] != '|'
      {
        if k < |b| {
          assert s[k] == b[k];
        } else if k < |b| + |inner| {
          assert s[k] == inner[k - |b|];
        } else {
          assert s[k] == e[k - |b| - |inner|];
        }
      }
      NoMarkerFormatted(s);
    }
    forall j | 0 <= j < |pairs|
      ensures |pairs[j].0| > 0 && !Contains(s, pairs[j].0)
    {
      NotAcrossBlock(b, inner, e, pairs[j].0);
    }
    ReplaceEachAbsent(s, pairs);
    forall j | 0 <= j < |blocks| && j != i
      ensures !Contains(s, blocks[j].begin) && !Contains(s, blocks[j].end)
    {
      NotAcrossBlock(b, inner, e, blocks[j].begin);
      NotAcrossBlock(b, inner, e, blocks[j].end);
    }
    BlocksOnOneBlock(inner, blocks, i);
  }
}
