/** `generate_tests_code`: the same single test case for every generated app. */
module TestsEmitter {
  import opened PyStr

  const Header := "from django.test import TestCase\n\n\n"
  const Body := "class BasicTests(TestCase):\n" + "    def test_basic_functionality(self):\n"
              + "        self.assertEqual(1 + 1, 2)\n"

  /** `generate_tests_code()`: takes no input, so the text is fixed. */
  function GenerateTestsCode(): (code: string)
    ensures StartsWith(code, Header) && EndsWith(code, "\n")
    ensures code[|Header|..] == Body
  {
    var code := Header + Body;
    assert code[..|Header|] == Header;
    assert code[|Header|..] == Body;
    code
  }
}
