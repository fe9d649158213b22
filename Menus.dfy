/**
  The four inline keyboards of the bot. A keyboard is a list of rows and a
  button is represented by the action token it sends back when pressed;
  the labels are presentation only.
 */
module Menus {

  type Token = string

  type Keyboard = seq<seq<Token>>

  /** The screens the dispatcher renders. */
  datatype Screen = Main | Currency | Crypto | Converter

  /** `get_main_menu` */
  function MainMenu(): Keyboard
  {
    [["currency"], ["crypto"], ["converter"]]
  }

  /** `get_currency_menu`: three quotes against the rouble and a back button. */
  function CurrencyMenu(): Keyboard
  {
    [["usd"], ["eur"], ["gbp"], ["main"]]
  }

  /** `get_crypto_menu`: ten coins, two per row, and a back button. */
  function CryptoMenu(): Keyboard
  {
    [ ["btc", "eth"],
      ["bnb", "xrp"],
      ["sol", "ada"],
      ["doge", "dot"],
      ["trx", "link"],
      ["main"] ]
  }

  /** `get_converter_menu`: only the back button. */
  function ConverterMenu(): Keyboard
  {
    [["main"]]
  }

  function Layout(s: Screen): Keyboard
  {
    match s
    case Main => MainMenu()
    case Currency => CurrencyMenu()
    case Crypto => CryptoMenu()
    case Converter => ConverterMenu()
  }

  /** Every token of a keyboard, row by row. */
  function Tokens(k: Keyboard): (ts: seq<Token>)
    ensures forall t :: t in ts <==> exists i, j :: 0 <= i < |k| && 0 <= j < |k[i]| && k[i][j] == t
  {
    if k == [] then []
    else
      assert forall i :: 0 < i < |k| ==> k[i] == k[1..][i - 1];
      k[0] + Tokens(k[1..])
  }

  /** A submenu's last row is the single back button to the main menu. */
  predicate EndsWithBack(k: Keyboard)
  {
    |k| > 0 && k[|k| - 1] == ["main"]
  }

  /** The main menu offers exactly the three categories, and every other
      screen ends with the back button. */
  lemma MenuShapes()
    ensures Tokens(MainMenu()) == ["currency", "crypto", "converter"]
    ensures !EndsWithBack(MainMenu())
    ensures forall s :: s != Main ==> EndsWithBack(Layout(s))
    ensures Tokens(CurrencyMenu()) == ["usd", "eur", "gbp", "main"]
    ensures Tokens(ConverterMenu()) == ["main"]
  {
    var m := MainMenu();
    assert m[1..][1..][1..] == [];
    assert m[1..][1..] == [["converter"]];
    assert m[1..] == [["crypto"], ["converter"]];
    var c := CurrencyMenu();
    assert c[1..][1..][1..][1..] == [];
    assert c[1..][1..][1..] == [["main"]];
    assert c[1..][1..] == [["gbp"], ["main"]];
    assert c[1..] == [["eur"], ["gbp"], ["main"]];
    assert ConverterMenu()[1..] == [];
  }

  /** The crypto keyboard is five rows of two coins above the back row. */
  lemma CryptoMenuShape()
    ensures |CryptoMenu()| == 6
    ensures forall i :: 0 <= i < 5 ==> |CryptoMenu()[i]| == 2
    ensures CryptoMenu()[5] == ["main"]
  {
  }
}
