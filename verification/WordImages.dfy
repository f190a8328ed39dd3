/** Images given as a list of words, for concrete inputs. */
module WordImages {
  import opened Words
  import opened ControlFlow

  function BytesOf(words: seq<Word>): seq<Byte> {
    if words == [] then []
      else [Byte0(words[0]), Byte1(words[0]), Byte2(words[0]), Byte3(words[0])] + BytesOf(words[1..])
  }

  lemma {:induction false} BytesOfAt(words: seq<Word>, i: nat)
    requires i < |words|
    ensures |BytesOf(words)| == 4 * |words|
    ensures var b := BytesOf(words);
            && b[4 * i] == Byte0(words[i]) && b[4 * i + 1] == Byte1(words[i])
            && b[4 * i + 2] == Byte2(words[i]) && b[4 * i + 3] == Byte3(words[i])
    decreases |words|
  {
    hide Byte0, Byte1, Byte2, Byte3;
    if |words| > 1 {
      BytesOfAt(words[1..], if i > 0 then i - 1 else 0);
    }
  }

  lemma WordOfImage(load: Word, words: seq<Word>, i: nat)
    requires i < |words|
    ensures Image(load, BytesOf(words)).ReadWord(load + 4 * i) == Some(words[i])
    ensures Image(load, BytesOf(words)).ReadWord(load + 4 * |words|) == None
  {
    hide Byte0, Byte1, Byte2, Byte3, Join, BytesOf, Image.ReadWord;
    BytesOfAt(words, i);
    JoinOfBytes(words[i]);
    var img := Image(load, BytesOf(words));
    ReadInside(img, 4 * i);
    ReadPastEnd(img);
  }

  lemma ReadPastEnd(img: Image)
    ensures img.ReadWord(img.End()) == None
  {
    hide Join;
  }

  lemma ReadInside(img: Image, k: nat)
    requires k + 3 < |img.code|
    ensures img.ReadWord(img.load + k) == Some(Join(img.code[k], img.code[k + 1], img.code[k + 2], img.code[k + 3]))
  {
    hide Join;
  }

  function ImageOf(load: Word, words: seq<Word>): Image {
    Image(load, BytesOf(words))
  }
}
