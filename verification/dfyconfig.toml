# The verification project beside the proxy.
includes = ["**/*.dfy"]
