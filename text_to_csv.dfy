/** datasets/text_to_csv.py: splits a text of posts separated by `---`
    into one-column CSV rows. Reading and writing the files is not
    modelled: the input is the file's text and the output is the list of
    rows handed to the CSV writer. */
module TextToCsv {
  import opened Text

  const Separator: string := "---"
  const Header: seq<string> := ["text"]

  /** The cleaned pieces that are not empty, in order; `clean` is the
      comprehension's `post.strip()`. */
  function KeptBy(pieces: seq<string>, clean: string -> string): (posts: seq<string>)
    ensures |posts| <= |pieces|
    ensures forall k :: 0 <= k < |posts| ==> posts[k] != ""
  {
    if pieces == [] then []
    else
      var last := clean(pieces[|pieces| - 1]);
      KeptBy(pieces[..|pieces| - 1], clean) + (if last != "" then [last] else [])
  }

  /** Keeping distributes over concatenation: the posts of a run of
      pieces are those of its first part followed by those of the rest, so
      every piece that does not clean to nothing gives one post, in order. */
  lemma {:induction false} KeptByAppend(a: seq<string>, b: seq<string>, clean: string -> string)
    ensures KeptBy(a + b, clean) == KeptBy(a, clean) + KeptBy(b, clean)
    decreases |b|
  {
    if b == [] {
      assert a + b == a;
    } else {
      var init := b[..|b| - 1];
      KeptByAppend(a, init, clean);
      assert (a + b)[..|a + b| - 1] == a + init;
      assert (a + b)[|a + b| - 1] == b[|b| - 1];
    }
  }

  /** A single piece gives its cleaned text, or nothing when that is empty. */
  lemma KeptByOne(piece: string, clean: string -> string)
    ensures KeptBy([piece], clean) == if clean(piece) != "" then [clean(piece)] else []
  {
    assert [piece][..0] == [];
  }

  /** `[post.strip() for post in content.split("---") if post.strip()]` */
  function Posts(content: string): (posts: seq<string>)
    ensures |posts| <= |Split(content, Separator)|
    ensures forall k :: 0 <= k < |posts| ==> posts[k] != ""
  {
    KeptBy(Split(content, Separator), Strip)
  }

  /** The posts are exactly the non-empty cleaned pieces, and an idempotent
      cleaning leaves each of them as it is. */
  lemma {:induction false} KeptBySpec(pieces: seq<string>, clean: string -> string)
    ensures forall p :: p in KeptBy(pieces, clean) <==>
      p != "" && exists k :: 0 <= k < |pieces| && clean(pieces[k]) == p
    ensures (forall t :: clean(clean(t)) == clean(t)) ==>
      forall k :: 0 <= k < |KeptBy(pieces, clean)| ==> clean(KeptBy(pieces, clean)[k]) == KeptBy(pieces, clean)[k]
  {
    if pieces != [] {
      var init := pieces[..|pieces| - 1];
      KeptBySpec(init, clean);
      assert forall k :: 0 <= k < |init| ==> init[k] == pieces[k];
    }
  }

  /** When no piece cleans to nothing, every piece gives a post, in order. */
  lemma {:induction false} KeptByAll(pieces: seq<string>, clean: string -> string)
    requires forall k :: 0 <= k < |pieces| ==> clean(pieces[k]) != ""
    ensures |KeptBy(pieces, clean)| == |pieces|
    ensures forall k :: 0 <= k < |pieces| ==> KeptBy(pieces, clean)[k] == clean(pieces[k])
  {
    if pieces != [] {
      KeptByAll(pieces[..|pieces| - 1], clean);
    }
  }

  /** No post is empty or has white space at either end, and every piece
      that is not blank gives a post. */
  lemma PostsSpec(content: string)
    ensures forall k :: 0 <= k < |Posts(content)| ==> Posts(content)[k] != "" && Strip(Posts(content)[k]) == Posts(content)[k]
    ensures var pieces := Split(content, Separator);
      forall k :: 0 <= k < |pieces| && Strip(pieces[k]) != "" ==> Strip(pieces[k]) in Posts(content)
  {
    var pieces := Split(content, Separator);
    forall t ensures Strip(Strip(t)) == Strip(t) {
      StripIdempotent(t);
    }
    KeptBySpec(pieces, Strip);
  }

  /** A text without a separator is one post, or none when it is blank. */
  lemma PostsWithoutSeparator(content: string)
    requires !Contains(content, Separator)
    ensures Strip(content) != "" ==> Posts(content) == [Strip(content)]
    ensures Strip(content) == "" ==> Posts(content) == []
  {
    assert Split(content, Separator) == [content];
    assert Split(content, Separator)[..0] == [];
  }

  /** `post.replace("\n", "\\n")`: each newline becomes a backslash and an `n`. */
  function Escape(post: string): (r: string)
    ensures '\n' !in r
    ensures '\n' !in post ==> r == post
  {
    ReplaceRemovesChar(post, '\n', "\\n");
    if '\n' !in post then
      NoLeadNoOccurrence(post, "\n");
      ReplaceAbsent(post, "\n", "\\n");
      Replace(post, "\n", "\\n")
    else
      Replace(post, "\n", "\\n")
  }

  /** Escaping cuts the post at its newlines and joins the newline-free
      pieces back with a backslash and an `n` in place of each newline. */
  lemma EscapeSpec(post: string)
    ensures var pieces := Split(post, "\n");
      && Join(pieces, "\n") == post
      && (forall k :: 0 <= k < |pieces| ==> '\n' !in pieces[k])
      && Escape(post) == Join(pieces, "\\n")
  {
    SplitJoin(post, "\n");
    SplitCharFree(post, '\n');
    assert Escape(post) == Replace(post, "\n", "\\n");
  }

  /** No field of the row holds a newline. */
  predicate SingleLine(row: seq<string>) {
    forall f :: 0 <= f < |row| ==> '\n' !in row[f]
  }

  /** The rows the script hands to the CSV writer for the given posts: the
      header, then one escaped post per row. */
  function Rows(posts: seq<string>): (rows: seq<seq<string>>)
    ensures |rows| == |posts| + 1 && rows[0] == Header
  {
    [Header] + seq(|posts|, k requires 0 <= k < |posts| => [Escape(posts[k])])
  }

  /** The output is the header followed by exactly one row per post, in
      order, and no field holds a newline. */
  lemma RowsSpec(posts: seq<string>)
    ensures var rows := Rows(posts);
      && |rows| == |posts| + 1 && rows[0] == Header
      && (forall k :: 0 <= k < |posts| ==> rows[k + 1] == [Escape(posts[k])])
      && forall k :: 0 <= k < |rows| ==> SingleLine(rows[k])
  {
    var rows := Rows(posts);
    forall k | 0 <= k < |rows| ensures SingleLine(rows[k]) {
      if k > 0 {
        assert rows[k] == [Escape(posts[k - 1])];
      }
    }
  }

  /** The script's output loop: the header row, then each post escaped. */
  method WriteRows(posts: seq<string>) returns (rows: seq<seq<string>>)
    ensures rows == Rows(posts)
  {
    rows := [Header];
    var i := 0;
    while i < |posts|
      invariant i <= |posts|
      invariant rows == Rows(posts[..i])
    {
      assert posts[..i + 1] == posts[..i] + [posts[i]];
      var formattedPost := Escape(posts[i]);
      rows := rows + [[formattedPost]];
      i := i + 1;
    }
    assert posts[..|posts|] == posts;
  }

  /** The script: the posts of the text, written one per row after the
      header. */
  method TextToCsv(content: string) returns (rows: seq<seq<string>>)
    ensures rows == Rows(Posts(content))
  {
    var posts := Posts(content);
    rows := WriteRows(posts);
  }
}
