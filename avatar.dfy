/**
 * The `/random/` descriptor of src/components/MyAvatar/MyAvatar.tsx.
 *
 * An avatar source that is a string starting with `/random/` is not an image URL
 * but a comma-separated list of key/value pairs (`t` text, `w`/`h` size, `b`
 * background colour, `f` text colour). The component renders it as a coloured
 * badge with a text instead of an image; any other source is shown as an image.
 */
module Avatar {
  import opened Wrappers

  /** The `src` prop: a string, or anything else (undefined, a React node). */
  datatype Src = Text(s: string) | NotText

  /**
   * A value in the parsed descriptor: `undefined`, a string, or the number that
   * `Number(raw)` makes of the raw partner of a `w`/`h` key.
   */
  datatype Val = Undef | Str(s: string) | Num(raw: Option<string>)

  /** What the component shows. */
  datatype View = Image(src: Src) | Badge(text: string, color: string, background: string)

  const RandomPrefix: string := "/random/"

  /** `typeof src === 'string' && /^\/random\//.test(src)`. */
  predicate IsRandom(src: Src) {
    src.Text? && |src.s| >= |RandomPrefix| && src.s[..|RandomPrefix|] == RandomPrefix
  }

  /** The items joined back with commas. */
  function Join(parts: seq<string>): string
    requires |parts| >= 1
  {
    if |parts| == 1 then parts[0] else parts[0] + "," + Join(parts[1..])
  }

  /** `s.split(',')`: never empty, no item holds a comma, and joining gives `s` back. */
  function Split(s: string): (parts: seq<string>)
    ensures |parts| >= 1
    ensures forall i :: 0 <= i < |parts| ==> ',' !in parts[i]
    ensures Join(parts) == s
    decreases |s|
  {
    if s == [] then [""]
    else
      var rest := Split(s[1..]);
      if s[0] == ',' then [""] + rest
      else
        var parts := [[s[0]] + rest[0]] + rest[1..];
        assert parts[1..] == rest[1..];
        assert |rest| > 1 ==> Join(rest) == rest[0] + "," + Join(rest[1..]);
        parts
  }

  /** One ordinary character in front joins the first item. */
  lemma SplitCons(c: char, t: string)
    requires c != ','
    ensures Split([c] + t) == [[c] + Split(t)[0]] + Split(t)[1..]
  {
    assert ([c] + t)[1..] == t;
  }

  /** Splitting a comma-free prefix onto a text glues it to the first item. */
  lemma {:induction false} SplitGlue(a: string, s: string)
    requires ',' !in a
    ensures Split(a + s) == [a + Split(s)[0]] + Split(s)[1..]
    decreases |a|
  {
    if a != [] {
      var t := a[1..] + s;
      assert a + s == [a[0]] + t;
      SplitCons(a[0], t);
      SplitGlue(a[1..], s);
      assert [a[0]] + (a[1..] + Split(s)[0]) == a + Split(s)[0];
    } else {
      assert a + s == s && a + Split(s)[0] == Split(s)[0];
    }
  }

  /** The other round trip: comma-free items survive a join and a split. */
  lemma {:induction false} SplitJoin(parts: seq<string>)
    requires |parts| >= 1
    requires forall i :: 0 <= i < |parts| ==> ',' !in parts[i]
    ensures Split(Join(parts)) == parts
    decreases |parts|
  {
    if |parts| == 1 {
      SplitGlue(parts[0], "");
      assert parts[0] + "" == parts[0];
    } else {
      var tail := Join(parts[1..]);
      SplitJoin(parts[1..]);
      SplitGlue(parts[0], "," + tail);
      assert ("," + tail)[1..] == tail;
      assert Split("," + tail) == [""] + parts[1..];
      assert parts[0] + "" == parts[0];
    }
  }

  /** `w` and `h` go through `Number` first. */
  predicate IsSizeKey(k: string) {
    k == "w" || k == "h"
  }

  /**
   * The value bound to the key at even index `i`: its partner `params[i + 1]`
   * (undefined past the end), converted with `Number` for `w`/`h`; for other keys
   * the strings `'undefined'` and `''` become undefined.
   */
  function ValueAt(items: seq<string>, i: nat): (v: Val)
    requires i < |items|
    ensures IsSizeKey(items[i]) ==> v == Num(if i + 1 < |items| then Some(items[i + 1]) else None)
    ensures !IsSizeKey(items[i]) && i + 1 < |items| && items[i + 1] != "undefined" && items[i + 1] != ""
            ==> v == Str(items[i + 1])
    ensures !IsSizeKey(items[i]) && (i + 1 >= |items| || items[i + 1] == "undefined" || items[i + 1] == "")
            ==> v == Undef
  {
    var raw := if i + 1 < |items| then Some(items[i + 1]) else None;
    if IsSizeKey(items[i]) then Num(raw)
    else match raw
      case None => Undef
      case Some(s) => if s == "undefined" || s == "" then Undef else Str(s)
  }

  /** The `reduce` over the first `n` items: every even-index item is a key bound to `ValueAt`. */
  function Pairs(items: seq<string>, n: nat): map<string, Val>
    requires n <= |items|
  {
    if n == 0 then map[]
    else
      var acc := Pairs(items, n - 1);
      if (n - 1) % 2 == 0 then acc[items[n - 1] := ValueAt(items, n - 1)] else acc
  }

  /** Index `j` below `n` holds key `k`. */
  predicate KeyIndex(items: seq<string>, n: nat, j: int, k: string)
    requires n <= |items|
  {
    0 <= j < n && j % 2 == 0 && items[j] == k
  }

  /** Index `j` below `n` is the last one holding key `k`. */
  predicate LastKeyIndex(items: seq<string>, n: nat, j: int, k: string)
    requires n <= |items|
  {
    KeyIndex(items, n, j, k) && forall j' :: j < j' < n ==> !KeyIndex(items, n, j', k)
  }

  /** A key is bound exactly when it stands at an even index, and the last such index wins. */
  lemma {:induction false} PairsLastWins(items: seq<string>, n: nat, k: string)
    requires n <= |items|
    ensures k in Pairs(items, n) <==> exists j :: KeyIndex(items, n, j, k)
    ensures forall j :: LastKeyIndex(items, n, j, k) ==> Pairs(items, n)[k] == ValueAt(items, j)
  {
    if n > 0 {
      PairsLastWins(items, n - 1, k);
      var i := n - 1;
      if i % 2 == 0 && items[i] == k {
        assert KeyIndex(items, n, i, k);
        forall j | LastKeyIndex(items, n, j, k) ensures j == i { }
      } else {
        var m := n - 1;
        forall j ensures KeyIndex(items, n, j, k) <==> KeyIndex(items, m, j, k) { }
        forall j | LastKeyIndex(items, n, j, k) ensures LastKeyIndex(items, m, j, k) {
          forall j' | j < j' < m ensures !KeyIndex(items, m, j', k) {
            assert !KeyIndex(items, n, j', k);
          }
        }
      }
    }
  }

  /** The descriptor after the 8-character prefix, split and folded into key/value pairs. */
  function Descriptor(src: string): map<string, Val>
    requires |src| >= |RandomPrefix|
  {
    var items := Split(src[|RandomPrefix|..]);
    Pairs(items, |items|)
  }

  /** A random source built from comma-free items folds exactly those items. */
  lemma DescriptorOfItems(src: string, parts: seq<string>)
    requires |parts| >= 1 && forall i :: 0 <= i < |parts| ==> ',' !in parts[i]
    requires src == RandomPrefix + Join(parts)
    ensures IsRandom(Text(src))
    ensures Descriptor(src) == Pairs(parts, |parts|)
  {
    assert src[..|RandomPrefix|] == RandomPrefix;
    assert src[|RandomPrefix|..] == Join(parts);
    SplitJoin(parts);
  }

  /** `Object.assign({b: 'ff0000', f: '000000'}, data)`: a key present in `data`, even as undefined, wins. */
  function WithDefaults(data: map<string, Val>): (r: map<string, Val>)
    ensures r.Keys == data.Keys + {"b", "f"}
    ensures forall k :: k in data ==> r[k] == data[k]
    ensures "b" !in data ==> r["b"] == Str("ff0000")
    ensures "f" !in data ==> r["f"] == Str("000000")
  {
    map["b" := Str("ff0000"), "f" := Str("000000")] + data
  }

  predicate IsDigit(c: char) {
    '0' <= c <= '9'
  }

  predicate AllDigits(s: string) {
    forall i :: 0 <= i < |s| ==> IsDigit(s[i])
  }

  /** Every decimal integer of at most this many digits is a double that prints back exactly. */
  const MaxExactDigits := 15

  /** `String(Number(raw))` for the inputs the model covers (see README). */
  function NumberText(raw: Option<string>): (t: string)
    ensures raw == Some("") ==> t == "0"
    ensures raw.None? ==> t == "NaN"
    ensures raw.Some? && raw.value != [] && AllDigits(raw.value) && |raw.value| <= MaxExactDigits ==>
              t != [] && |t| <= |raw.value| && t == raw.value[|raw.value| - |t|..] &&
              (forall i :: 0 <= i < |raw.value| - |t| ==> raw.value[i] == '0') &&
              (t[0] == '0' ==> t == "0")
    ensures (raw.Some? && raw.value != [] && raw.value[0] != '0' && AllDigits(raw.value) &&
             |raw.value| <= MaxExactDigits) ==> t == raw.value
  {
    match raw
    case None => "NaN"
    case Some(s) =>
      if s == "" then "0"
      else if AllDigits(s) then StripZeros(s)
      else "NaN"
  }

  /** A digit string without its leading zeros, "0" when nothing is left. */
  function StripZeros(s: string): (t: string)
    requires s != []
    ensures t != []
    ensures s[0] != '0' ==> t == s
    ensures |t| <= |s| && t == s[|s| - |t|..]
    ensures forall i :: 0 <= i < |s| - |t| ==> s[i] == '0'
    ensures t[0] == '0' ==> t == "0"
    decreases |s|
  {
    if s[0] == '0' && |s| > 1 then StripZeros(s[1..]) else s
  }

  /** `Number` drops leading zeros: "007" prints as 7 and "000" as 0. */
  lemma NumberTextLeadingZeros()
    ensures NumberText(Some("007")) == "7"
    ensures NumberText(Some("000")) == "0"
  {
    assert AllDigits("007") && AllDigits("000");
    assert "007"[1..] == "07" && "07"[1..] == "7";
    assert "000"[1..] == "00" && "00"[1..] == "0";
  }

  /** `${data[k]}`: how a descriptor value prints inside a template string. */
  function Show(v: Option<Val>): string {
    match v
    case None => "undefined"
    case Some(Undef) => "undefined"
    case Some(Str(s)) => s
    case Some(Num(raw)) => NumberText(raw)
  }

  function Lookup(data: map<string, Val>, k: string): Option<Val> {
    if k in data then Some(data[k]) else None
  }

  /** `data.t || `${data.w}x${data.h}``. */
  function BadgeText(data: map<string, Val>): (text: string)
    ensures (Lookup(data, "t").Some? && data["t"].Str? && data["t"].s != "") ==> text == data["t"].s
    ensures !(Lookup(data, "t").Some? && data["t"].Str? && data["t"].s != "")
            ==> text == Show(Lookup(data, "w")) + "x" + Show(Lookup(data, "h"))
  {
    match Lookup(data, "t")
    case Some(Str(s)) =>
      if s != "" then s else Show(Lookup(data, "w")) + "x" + Show(Lookup(data, "h"))
    case _ => Show(Lookup(data, "w")) + "x" + Show(Lookup(data, "h"))
  }

  /** What the component renders for `src`. */
  function ParseAvatar(src: Src): (v: View)
    ensures !IsRandom(src) ==> v == Image(src)
    ensures IsRandom(src) ==> v.Badge? && v.text != []
    ensures IsRandom(src) ==>
              var data := WithDefaults(Descriptor(src.s));
              v.color == "#" + Show(Some(data["f"])) && v.background == "#" + Show(Some(data["b"]))
  {
    if IsRandom(src) then
      var data := WithDefaults(Descriptor(src.s));
      Badge(BadgeText(data), "#" + Show(Lookup(data, "f")), "#" + Show(Lookup(data, "b")))
    else Image(src)
  }

  /** A random source renders from its descriptor alone. */
  lemma RenderOfDescriptor(src: string, data: map<string, Val>)
    requires IsRandom(Text(src)) && Descriptor(src) == data
    ensures ParseAvatar(Text(src)) ==
            Badge(BadgeText(WithDefaults(data)), "#" + Show(Lookup(WithDefaults(data), "f")),
                  "#" + Show(Lookup(WithDefaults(data), "b")))
  {
  }

  /** The items of a `/random/` descriptor. */
  function Items(src: Src): seq<string>
    requires IsRandom(src)
  {
    Split(src.s[|RandomPrefix|..])
  }

  /** The badge shows the partner of the last `t` key when that partner is a real, non-empty string. */
  lemma TextFromLastT(src: Src, j: nat)
    requires IsRandom(src)
    requires LastKeyIndex(Items(src), |Items(src)|, j, "t")
    requires j + 1 < |Items(src)| && Items(src)[j + 1] != "" && Items(src)[j + 1] != "undefined"
    ensures ParseAvatar(src).text == Items(src)[j + 1]
  {
    var items := Items(src);
    PairsLastWins(items, |items|, "t");
    assert Descriptor(src.s)["t"] == Str(items[j + 1]);
  }

  /** Without a `t` key the badge shows `<w>x<h>`. */
  lemma TextWithoutT(src: Src)
    requires IsRandom(src)
    requires forall j :: !KeyIndex(Items(src), |Items(src)|, j, "t")
    ensures ParseAvatar(src).text ==
              var data := Descriptor(src.s);
              Show(Lookup(data, "w")) + "x" + Show(Lookup(data, "h"))
  {
    PairsLastWins(Items(src), |Items(src)|, "t");
  }

  /** Without a `b` key the background takes its default. */
  lemma BackgroundDefault(src: Src)
    requires IsRandom(src)
    requires forall j :: !KeyIndex(Items(src), |Items(src)|, j, "b")
    ensures ParseAvatar(src).background == "#ff0000"
  {
    PairsLastWins(Items(src), |Items(src)|, "b");
    assert "b" !in Descriptor(src.s);
  }

  /** Without an `f` key the text colour takes its default. */
  lemma ColorDefault(src: Src)
    requires IsRandom(src)
    requires forall j :: !KeyIndex(Items(src), |Items(src)|, j, "f")
    ensures ParseAvatar(src).color == "#000000"
  {
    PairsLastWins(Items(src), |Items(src)|, "f");
    assert "f" !in Descriptor(src.s);
  }

  /** A `b` key overrides the default even when its value was turned into undefined. */
  lemma BackgroundFromLastB(src: Src, j: nat)
    requires IsRandom(src)
    requires LastKeyIndex(Items(src), |Items(src)|, j, "b")
    ensures ParseAvatar(src).background == "#" + Show(Some(ValueAt(Items(src), j)))
  {
    PairsLastWins(Items(src), |Items(src)|, "b");
  }

  /** The descriptor of the first example. */
  lemma ExampleTextDescriptor(src: string)
    requires src == "/random/t,Hi,b,00ff00"
    ensures IsRandom(Text(src))
    ensures Descriptor(src) == map["t" := Str("Hi"), "b" := Str("00ff00")]
  {
    var parts := ["t", "Hi", "b", "00ff00"];
    ExampleTextItems();
    assert src == RandomPrefix + "t,Hi,b,00ff00";
    DescriptorOfItems(src, parts);
    ExampleTextPairs();
  }

  /** First example, split step: the items join back to the descriptor text. */
  lemma ExampleTextItems()
    ensures Join(["t", "Hi", "b", "00ff00"]) == "t,Hi,b,00ff00"
  {
  }

  /** First example, fold step: the items fold to `t` and `b`. */
  lemma ExampleTextPairs()
    ensures Pairs(["t", "Hi", "b", "00ff00"], 4) == map["t" := Str("Hi"), "b" := Str("00ff00")]
  {
    var parts := ["t", "Hi", "b", "00ff00"];
    assert ValueAt(parts, 0) == Str("Hi") && ValueAt(parts, 2) == Str("00ff00");
    assert Pairs(parts, 2) == map["t" := Str("Hi")];
  }

  /** A text and a background colour; the text colour keeps its default. */
  lemma ExampleText(src: string)
    requires src == "/random/t,Hi,b,00ff00"
    ensures ParseAvatar(Text(src)) == Badge("Hi", "#000000", "#00ff00")
  {
    var data := map["t" := Str("Hi"), "b" := Str("00ff00")];
    ExampleTextDescriptor(src);
    RenderOfDescriptor(src, data);
    var full := WithDefaults(data);
    assert Lookup(full, "t") == Some(Str("Hi"));
    assert Lookup(full, "f") == Some(Str("000000")) && Lookup(full, "b") == Some(Str("00ff00"));
  }

  /** The descriptor of the second example. */
  lemma ExampleEmptyBackgroundDescriptor(src: string)
    requires src == "/random/w,40,h,40,b,"
    ensures IsRandom(Text(src))
    ensures Descriptor(src) == map["w" := Num(Some("40")), "h" := Num(Some("40")), "b" := Undef]
  {
    var parts := ["w", "40", "h", "40", "b", ""];
    ExampleEmptyBackgroundItems();
    assert src == RandomPrefix + "w,40,h,40,b,";
    DescriptorOfItems(src, parts);
    ExampleEmptyBackgroundPairs();
  }

  /** Second example, split step: the items join back to the descriptor text. */
  lemma ExampleEmptyBackgroundItems()
    ensures Join(["w", "40", "h", "40", "b", ""]) == "w,40,h,40,b,"
  {
  }

  /** Second example, fold step: the empty `b` partner becomes undefined. */
  lemma ExampleEmptyBackgroundPairs()
    ensures Pairs(["w", "40", "h", "40", "b", ""], 6) == map["w" := Num(Some("40")), "h" := Num(Some("40")), "b" := Undef]
  {
    var parts := ["w", "40", "h", "40", "b", ""];
    assert ValueAt(parts, 0) == Num(Some("40")) && ValueAt(parts, 2) == Num(Some("40"));
    assert ValueAt(parts, 4) == Undef;
    assert Pairs(parts, 2) == map["w" := Num(Some("40"))];
    assert Pairs(parts, 4) == map["w" := Num(Some("40")), "h" := Num(Some("40"))];
  }

  /** A size, and an empty `b` that becomes undefined and still overrides the default. */
  lemma ExampleEmptyBackground(src: string)
    requires src == "/random/w,40,h,40,b,"
    ensures ParseAvatar(Text(src)) == Badge("40x40", "#000000", "#undefined")
  {
    var data := map["w" := Num(Some("40")), "h" := Num(Some("40")), "b" := Undef];
    ExampleEmptyBackgroundDescriptor(src);
    RenderOfDescriptor(src, data);
    ExampleEmptyBackgroundRender(data);
  }

  /** Second example, render step: the size text and the two colours. */
  lemma ExampleEmptyBackgroundRender(data: map<string, Val>)
    requires data == map["w" := Num(Some("40")), "h" := Num(Some("40")), "b" := Undef]
    ensures BadgeText(WithDefaults(data)) == "40x40"
    ensures "#" + Show(Lookup(WithDefaults(data), "f")) == "#000000"
    ensures "#" + Show(Lookup(WithDefaults(data), "b")) == "#undefined"
  {
    ExampleEmptyBackgroundLookups(data);
    ExampleSizeText(WithDefaults(data));
  }

  /** Second example, defaults step: what each key reads after `Object.assign`. */
  lemma ExampleEmptyBackgroundLookups(data: map<string, Val>)
    requires data == map["w" := Num(Some("40")), "h" := Num(Some("40")), "b" := Undef]
    ensures Lookup(WithDefaults(data), "t") == None
    ensures Lookup(WithDefaults(data), "w") == Some(Num(Some("40")))
    ensures Lookup(WithDefaults(data), "h") == Some(Num(Some("40")))
    ensures Lookup(WithDefaults(data), "f") == Some(Str("000000"))
    ensures Lookup(WithDefaults(data), "b") == Some(Undef)
  {
  }

  /** Second example, text step: `w` and `h` of 40 print as 40x40. */
  lemma ExampleSizeText(full: map<string, Val>)
    requires Lookup(full, "t") == None
    requires Lookup(full, "w") == Some(Num(Some("40"))) && Lookup(full, "h") == Some(Num(Some("40")))
    ensures BadgeText(full) == "40x40"
  {
    assert AllDigits("40");
    assert NumberText(Some("40")) == "40";
    assert "40" + "x" + "40" == "40x40";
  }

  /** A trailing key without a partner: `Number(undefined)` prints as NaN, a missing `h` as undefined. */
  lemma ExampleTrailingKey()
    ensures ParseAvatar(Text("/random/w")) == Badge("NaNxundefined", "#000000", "#ff0000")
  {
    var src := "/random/w";
    var data := map["w" := Num(None)];
    assert Join(["w"]) == "w";
    DescriptorOfItems(src, ["w"]);
    assert ValueAt(["w"], 0) == Num(None);
    assert Pairs(["w"], 1) == data;
    RenderOfDescriptor(src, data);
    ExampleTrailingKeyRender(data);
  }

  /** Third example, render step: NaN, undefined and the two default colours. */
  lemma ExampleTrailingKeyRender(data: map<string, Val>)
    requires data == map["w" := Num(None)]
    ensures BadgeText(WithDefaults(data)) == "NaNxundefined"
    ensures "#" + Show(Lookup(WithDefaults(data), "f")) == "#000000"
    ensures "#" + Show(Lookup(WithDefaults(data), "b")) == "#ff0000"
  {
    var full := WithDefaults(data);
    assert Lookup(full, "t") == None && Lookup(full, "h") == None;
    assert Lookup(full, "f") == Some(Str("000000")) && Lookup(full, "b") == Some(Str("ff0000"));
  }

  /** Any other string is an image source. */
  lemma ExampleImage()
    ensures ParseAvatar(Text("https://x/a.png")) == Image(Text("https://x/a.png"))
  {
    assert "https://x/a.png"[0] != RandomPrefix[0];
  }
}
